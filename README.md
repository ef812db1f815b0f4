# Hoomora hostel-booking UI — a Dafny model of its rules

Hoomora is a client-side React app for finding and booking hostels. It has no
library layer: its behaviour is a set of rules inside page and component
handlers. This project models those rules in Dafny and proves what they
guarantee:

- **Search** (`Search` and `Home` pages):
  - `handleSearch` narrows the full sample list by a case-insensitive location
    query on name or location;
  - it then applies a price bucket (`"min-max"` or `"min+"`), compared against
    a monthly price (month ×1, day ×30, hour ×24×30);
  - the Search page adds Clear Filters, the map toggle and the result count;
  - the Home page shows only the first six results.
- **Manage Listings**: search over the current listings, deletion by id, the
  "Total Listings" and "Total Beds" figures, the status badge and the empty-state text.
- **Bookings**: the status tabs, the duration text, the action buttons per
  status, the status badge and the empty-state text.
- **OTP verification dialog**:
  - four one-character slots;
  - a once-a-second resend countdown;
  - the resend guard and the verify guard;
  - the reset when the dialog opens.
- **Auth dialog**: sign-in/register mode, email/phone auth type, single-field
  form updates, the two-step phone flow, form reset and the submit label.
- **Typewriter headline**: per-tick typing and deleting over three phrases, the
  delayed switch to deleting, and the split of the typed text into a normal
  and a bold span.

The JavaScript primitives the rules rely on are modelled in `JsText`:

- `toLowerCase` on ASCII letters;
- `includes`;
- `split` on one character;
- `slice`, with clamping and negative positions;
- number-to-text;
- `parseInt`, as the value of the leading digit run, with `None` standing for NaN.

State that React keeps in `useState` is a Dafny `class`. Each state-changing
handler is a method with a `modifies` clause, stated against a pure function of the old
state. Timers become explicit event methods:

- `OtpVerification.Dialog.Tick` for the one-second interval;
- `Typewriter.Headline.Tick` for the tick timeout;
- `Typewriter.Headline.DeleteTimerFires` for the one-second "start deleting" timeout.

The dialogs' `onClose` calls and toasts are returned as out-parameters.

Modules:

- `Wrappers` holds `Option`.
- `Seqs` holds the order-preserving `Filter` and subsequence lemmas.
- `JsText`, `HostelFilter`, `SearchPage`, `HomePage`, `ManageListings`, `Bookings`,
  `OtpVerification`, `AuthModal` and `Typewriter` follow the source files.

Where the code and its description differ, the model follows the code. A price
bucket whose lower bound does not parse yields an empty result, because every
comparison with NaN is false. There is no permissive fallback
(`HostelFilter.SearchUnparsableMinIsEmpty`).

## Model

| member | source | states |
|---|---|---|
| Seqs.Filter | src/pages/Search.tsx:140-153 | the kept elements come from the input and satisfy the predicate, and there are no more of them than in the input |
| Seqs.FilterMembership | src/pages/Search.tsx:140-153 | an element is in the result iff it is in the input and satisfies the predicate |
| Seqs.FilterIsSubsequence | src/pages/Search.tsx:140-153 | filtering keeps the input order: the result is a subsequence of the input |
| Seqs.FilterIdempotent | src/pages/Search.tsx:140-153 | filtering twice with the same predicate equals filtering once |
| Seqs.FilterKeepsAll | src/pages/ManageListings.tsx:64-67 | when every element satisfies the predicate, the input comes back unchanged |
| Seqs.FilterKeepsNone | src/pages/Search.tsx:148-153 | when no element satisfies the predicate, the result is empty |
| Seqs.FilterFusion | src/pages/Search.tsx:139-153 | two successive filters equal one filter by the conjunction of their predicates |
| Seqs.SubsequenceNoLonger | src/pages/Search.tsx:137-156 | a subsequence is never longer than the sequence it comes from |
| JsText.LowerChar | src/pages/Search.tsx:141-142 | an ASCII capital 'A'..'Z' becomes the matching 'a'..'z'; every other character stays |
| JsText.ToLower | src/pages/Search.tsx:141-142 | lower-casing keeps the length, turns each ASCII capital into its own lower-case letter and keeps every other character |
| JsText.ToLowerIdempotent | src/pages/Search.tsx:141-142 | lower-casing twice equals lower-casing once |
| JsText.IncludesIff | src/pages/Search.tsx:141-142 | `includes` holds iff the query occurs at some position of the text |
| JsText.IncludesEmpty | src/pages/ManageListings.tsx:64-67 | every string includes the empty string |
| JsText.Split | src/pages/Search.tsx:147 | splitting gives at least one piece and no piece contains the separator |
| JsText.SplitJoin | src/pages/Search.tsx:147 | joining the pieces with the separator gives the string back |
| JsText.ClampIndex | src/components/Typewriter.tsx:28 | a slice position lands in `0..len`: in-range positions are kept, larger ones become `len`, negative ones count from the end and stop at 0 |
| JsText.Slice | src/components/Typewriter.tsx:28 | `slice(0, end)` is the prefix up to `end`, or up to `len + end` for a negative end, and never longer than the string |
| JsText.SliceFrom | src/components/Typewriter.tsx:51 | `slice(start)` is the suffix from `start`, and empty past the end |
| JsText.NatText | src/pages/Bookings.tsx:109 | the decimal text of a number is non-empty and all digits |
| JsText.DigitRun | src/pages/Search.tsx:147 | the digit run is a prefix of the text, all digits, and followed by a non-digit or nothing |
| JsText.ParseInt | src/pages/Search.tsx:147 | `parseInt` is NaN iff the text does not start with a digit, and never negative otherwise |
| JsText.NatTextValue | src/pages/Bookings.tsx:109 | reading back the digits of a number's text gives the number |
| JsText.ParseIntOfNatText | src/pages/Bookings.tsx:109 | a number's text followed by a non-digit (or nothing) parses back to the number |
| HostelFilter.MonthlyPrice | src/pages/Search.tsx:149-151 | the monthly figure is the price for a monthly listing, 30 times the price for a daily one and 720 (24 × 30) times the price for an hourly one, so never below the price |
| HostelFilter.PriceBounds | src/pages/Search.tsx:147 | a range without "-" (such as "15000+") has its own `parseInt` as the lower bound and no upper bound |
| HostelFilter.Truthy | src/pages/Search.tsx:152 | a missing or NaN upper bound and an upper bound of 0 are falsy; any other number is truthy |
| HostelFilter.InBounds | src/pages/Search.tsx:152 | a price passes only if the lower bound parsed and the price reaches it, and, when the upper bound is truthy, does not exceed it |
| HostelFilter.Search | src/pages/Search.tsx:136-157 | the result holds only hostels of the list that pass every active criterion, and never more of them than the list has |
| HostelFilter.HourIsTwentyFourTimesDay | src/pages/Search.tsx:149-151 | an hourly price converts like a daily price 24 times as large (×24×30) |
| HostelFilter.InBoundsIff | src/pages/Search.tsx:152 | with a truthy max, min ≤ monthly ≤ max (both inclusive); with a missing, zero or NaN max, monthly ≥ min; with a NaN min, nothing |
| HostelFilter.ZeroUpperBoundIsUnbounded | src/pages/Search.tsx:152 | an upper bound of 0 is falsy, so it imposes no upper limit |
| HostelFilter.SearchIsOneFilter | src/pages/Search.tsx:137-156 | the two-stage search equals one filter of the full list by location match and price match together |
| HostelFilter.SearchMembership | src/pages/Search.tsx:139-153 | a hostel is in the result iff it is in the list, matches the location query (or the query is empty) and matches the price bucket (or the bucket is "" or "any") |
| HostelFilter.SearchIsSubsequence | src/pages/Search.tsx:140-153 | the result keeps the order of the list |
| HostelFilter.SearchIdempotent | src/pages/Search.tsx:140-153 | searching the result again with the same filters returns it unchanged |
| HostelFilter.SearchWithoutCriteria | src/pages/Search.tsx:146 | an empty query with a price range of "" or "any" returns the whole list |
| HostelFilter.SearchIgnoresQueryCase | src/pages/Search.tsx:141-142 | queries that lower-case to the same text give the same result |
| HostelFilter.SearchQueryCaseExample | src/pages/Search.tsx:141-142 | the query "SUNSHINE" finds exactly the hostels "sunshine" finds |
| HostelFilter.SearchUnparsableMinIsEmpty | src/pages/Search.tsx:147-152 | an active bucket whose lower bound does not parse empties the result |
| HostelFilter.FormBuckets | src/pages/Search.tsx:147 | the four bucket strings parse to (0, 5000), (5000, 10000), (10000, 15000) and (15000, no max) |
| HostelFilter.BucketBounds | src/pages/Search.tsx:147 | any bucket "lo-hi" written with decimal numbers parses to exactly those numbers |
| HostelFilter.SplitAtSeparator | src/pages/Search.tsx:147 | a text with one separator splits into the two sides |
| HostelFilter.SplitWithoutSeparator | src/pages/Search.tsx:147 | a text without the separator splits into itself alone |
| HostelFilter.SharedEdgeInBothBuckets | src/pages/Home.tsx:142 | 5000, 10000 and 15000 pass both buckets that share them as an edge |
| SearchPage.Page.constructor | src/pages/Search.tsx:132-133 | the page starts with the full sample list and the map hidden |
| SearchPage.Page.HandleSearch | src/pages/Search.tsx:136-157 | the results become the search of the full sample list, whatever the earlier results were; the map flag is unchanged |
| SearchPage.Page.ClearFilters | src/pages/Search.tsx:238 | Clear Filters restores the full sample list |
| SearchPage.Page.ToggleMap | src/pages/Search.tsx:171-173 | the map flag flips and the results stay |
| SearchPage.Page.ResultCount | src/pages/Search.tsx:203 | the count shown is the number of results, at most the size of the sample list |
| SearchPage.SearchTwice | src/pages/Search.tsx:137 | after two searches the results depend only on the second search's filters |
| HomePage.FirstSix | src/pages/Home.tsx:397 | exactly min(6, number of results) results are shown; they are the first ones, in order; and all of them when there are six or fewer |
| HomePage.Page.constructor | src/pages/Home.tsx:89 | the page starts with the full Home sample list as its results |
| HomePage.Page.HandleSearch | src/pages/Home.tsx:126-147 | Home's search is the same function as Search's, applied to Home's full sample list |
| HomePage.Page.Featured | src/pages/Home.tsx:397 | with the five Home samples, every result is shown |
| HomePage.HourlySampleBuckets | src/pages/Home.tsx:77-78 | the hourly sample (150 per hour) is 108000 monthly, passes "15000+" and fails "0-5000" |
| HomePage.SampleMonthlyPrices | src/pages/Home.tsx:18-84 | the monthly figures of the five Home samples |
| HomePage.LowBucketFindsNothing | src/pages/Home.tsx:136-143 | no Home sample falls in "0-5000" |
| HomePage.MiddleBucketKeepsFirstFour | src/pages/Home.tsx:136-143 | "5000-10000" keeps the first four Home samples, in order, and drops the hourly one |
| ManageListings.EmptyStateMessage | src/pages/ManageListings.tsx:180 | the search-specific message is shown iff the search term is non-empty |
| ManageListings.StatusLabel | src/pages/ManageListings.tsx:69-80 | active, full and inactive get fixed labels; any other status shows its own text |
| ManageListings.Visible | src/pages/ManageListings.tsx:64-67 | every listing shown is a current listing whose name or location includes the term, case-insensitively, and there are no more of them than listings |
| ManageListings.WithoutId | src/pages/ManageListings.tsx:87 | every listing kept is a current listing with another id, and there are no more of them than listings |
| ManageListings.TotalBeds | src/pages/ManageListings.tsx:123 | the total of no listings is 0, and the total is at least the beds of each listing |
| ManageListings.VisibleMembership | src/pages/ManageListings.tsx:64-67 | a listing is visible iff it is a current listing whose lower-cased name or location includes the lower-cased term |
| ManageListings.VisibleIsSubsequence | src/pages/ManageListings.tsx:64-67 | the visible listings keep their order |
| ManageListings.EmptyTermShowsAll | src/pages/ManageListings.tsx:64-67 | an empty search term shows every listing |
| ManageListings.DeleteMembership | src/pages/ManageListings.tsx:86-88 | after deleting an id, a listing remains iff it was there and has another id |
| ManageListings.DeleteIsSubsequence | src/pages/ManageListings.tsx:86-88 | deletion keeps the order of the remaining listings |
| ManageListings.DeleteAbsentIsNoOp | src/pages/ManageListings.tsx:87 | deleting an id no listing has changes nothing |
| ManageListings.DeleteTwiceIsOnce | src/pages/ManageListings.tsx:87 | deleting the same id twice equals deleting it once |
| ManageListings.DeletedNeverVisible | src/pages/ManageListings.tsx:64-87 | a deleted listing never appears in the view, whatever the search term |
| ManageListings.DeleteLowersTotalBeds | src/pages/ManageListings.tsx:123 | with unique ids, deleting a listing lowers the bed total by exactly its beds |
| ManageListings.DeleteCountsOne | src/pages/ManageListings.tsx:110 | with unique ids, deleting a listing lowers the listing count by one |
| ManageListings.Page.constructor | src/pages/ManageListings.tsx:61-62 | the page starts with the sample listings and an empty search term |
| ManageListings.Page.SetSearchTerm | src/pages/ManageListings.tsx:168 | typing in the search box changes the term and leaves the listings |
| ManageListings.Page.DeleteListing | src/pages/ManageListings.tsx:86-88 | the listings become those with another id, in order; the search term is unchanged |
| ManageListings.Page.Shown | src/pages/ManageListings.tsx:64-67 | the view is exactly the current listings filtered by the current search term (`Visible`), so only current listings appear |
| ManageListings.Page.TotalListings | src/pages/ManageListings.tsx:110 | the "Total Listings" figure is the number of listings |
| ManageListings.Page.TotalBedsFigure | src/pages/ManageListings.tsx:123 | the "Total Beds" figure is the sum of the listings' beds |
| ManageListings.DeleteFromPage | src/pages/ManageListings.tsx:86-123 | deleting from the page lowers the bed figure by the listing's beds and the count by one |
| Bookings.FilteredBookings | src/pages/Bookings.tsx:89-91 | the "all" tab shows the list unchanged; every booking shown otherwise is from the list and has the tab's status |
| Bookings.DurationText | src/pages/Bookings.tsx:106-117 | the text starts with the number; an unknown booking type gives the number alone |
| Bookings.StatusLabel | src/pages/Bookings.tsx:93-104 | "active" shows "Active", "upcoming" shows "Upcoming", "completed" shows "Completed", and any other status shows its own text |
| Bookings.Actions | src/pages/Bookings.tsx:155-193 | active offers Extend Stay then Cancel, upcoming Modify then Cancel, completed Review then Book Again, any other status nothing; so Cancel is offered iff the booking is active or upcoming |
| Bookings.EmptyMessage | src/pages/Bookings.tsx:230 | "all" gets "You haven't made any bookings yet."; any other tab gets exactly "No <tab> bookings found.", which starts by naming the tab |
| Bookings.AllTabShowsEverything | src/pages/Bookings.tsx:89-90 | the "all" tab shows the booking list unchanged |
| Bookings.StatusTabMembership | src/pages/Bookings.tsx:91 | any other tab shows, in order, exactly the bookings whose status equals the tab key |
| Bookings.DurationTextPlural | src/pages/Bookings.tsx:106-113 | for hour, day and month the text is the count, a space, the unit and an "s" iff the count exceeds 1; it ends in "s" iff the count exceeds 1, and `parseInt` reads the count back |
| Bookings.DurationTextUnknownType | src/pages/Bookings.tsx:114-115 | an unknown booking type gives just the number |
| Bookings.TabsPartition | src/pages/Bookings.tsx:206-215 | a booking with a tab's status appears under that tab and under no other status tab |
| Bookings.Page.constructor | src/pages/Bookings.tsx:87 | the page opens on the "all" tab |
| Bookings.Page.SelectTab | src/pages/Bookings.tsx:215 | a tab click sets the filter to that tab's key |
| Bookings.Page.Shown | src/pages/Bookings.tsx:89-91 | the page shows exactly the sample bookings filtered by the selected tab (`FilteredBookings`): all of them on "all", otherwise only those with the selected status |
| OtpVerification.JoinedFullIffAllFilled | src/components/OTPVerificationModal.tsx:84-85 | with at most one character per slot, the joined code has length 4 iff no slot is empty |
| OtpVerification.KeepDigits | src/components/OTPVerificationModal.tsx:152 | the input handler passes on exactly the typed digits, in order, dropping every other character |
| OtpVerification.TickOnce | src/components/OTPVerificationModal.tsx:38-46 | a tick decrements a countdown above 1 and leaves the resend flag; at 1 or below the next state is 0 seconds with resending allowed; the countdown is never negative |
| OtpVerification.CountdownUnlocksAfter | src/components/OTPVerificationModal.tsx:38-46 | from s seconds, resending stays locked for s - 1 ticks and unlocks at 0 on the s-th |
| OtpVerification.UnlockedStaysUnlocked | src/components/OTPVerificationModal.tsx:40-42 | once at 0, further ticks keep it at 0 and resending allowed |
| OtpVerification.ResendUnlocksAtThirty | src/components/OTPVerificationModal.tsx:22-46 | after n ticks from a fresh 30-second countdown, resending is allowed iff n ≥ 30 |
| OtpVerification.TicksAdd | src/components/OTPVerificationModal.tsx:38-46 | m ticks then n ticks equal m + n ticks |
| OtpVerification.Dialog.constructor | src/components/OTPVerificationModal.tsx:21-24 | four empty slots, a 30-second countdown, resending locked, not verifying |
| OtpVerification.Dialog.Open | src/components/OTPVerificationModal.tsx:28-35 | opening resets the slots, the countdown to 30, resending locked and verifying off |
| OtpVerification.Dialog.Tick | src/components/OTPVerificationModal.tsx:38-46 | the countdown state advances by one tick; the slots and the verifying flag stay |
| OtpVerification.Dialog.HandleOtpChange | src/components/OTPVerificationModal.tsx:51-56 | a value longer than one character is ignored; otherwise only slot `index` takes the value |
| OtpVerification.Dialog.InputChanged | src/components/OTPVerificationModal.tsx:152 | typing stores the digits of the input in slot `index` when there is at most one, and the other slots never change |
| OtpVerification.Dialog.HandleResend | src/components/OTPVerificationModal.tsx:70-81 | while locked nothing changes; otherwise the countdown restarts at 30, resending locks and every slot is emptied |
| OtpVerification.Dialog.HandleVerify | src/components/OTPVerificationModal.tsx:83-98 | verification starts iff every slot is filled; an incomplete code changes nothing |
| OtpVerification.Dialog.FinishVerification | src/components/OTPVerificationModal.tsx:97-98 | the simulated verification's completion clears the verifying flag |
| OtpVerification.Dialog.VerifyDisabled | src/components/OTPVerificationModal.tsx:183 | the Verify button is disabled iff some slot is empty or a verification runs |
| OtpVerification.ResendAfterThirtyTicks | src/components/OTPVerificationModal.tsx:22-81 | the resend right after opening is refused (`early` is false); the one 30 ticks later is accepted (`late` is true) and the slots are emptied |
| AuthModal.WithField | src/components/AuthModal.tsx:30-32 | the named field takes the value and every other field keeps its value |
| AuthModal.WithFieldTwice | src/components/AuthModal.tsx:30-32 | a later update of a field overrides an earlier one |
| AuthModal.Flip | src/components/AuthModal.tsx:85 | switching mode always changes it |
| AuthModal.SubmitLabel | src/components/AuthModal.tsx:254-257 | for email the label is "Sign In" iff signing in, else "Create Account"; for phone it is "Verify OTP" iff the code was sent, else "Send OTP" |
| AuthModal.SubmitLabelDeterminesAction | src/components/AuthModal.tsx:252-257 | equal labels mean the same auth type, and the same mode (email) or the same sent flag (phone) |
| AuthModal.Dialog.constructor | src/components/AuthModal.tsx:16-27 | the dialog opens in the given mode (sign-in when none is given), on email, with an empty form, no code sent and the password hidden |
| AuthModal.OpenWithDefaultMode | src/components/AuthModal.tsx:16 | a dialog opened without a mode is on sign-in and email, so its button reads "Sign In" |
| AuthModal.Dialog.HandleInputChange | src/components/AuthModal.tsx:30-32 | only the named form field changes; every flag stays |
| AuthModal.Dialog.HandleGoogleSignIn | src/components/AuthModal.tsx:34-39 | Google sign-in only shows a placeholder toast and does not close the dialog |
| AuthModal.Dialog.HandleEmailAuth | src/components/AuthModal.tsx:41-54 | email auth always closes the dialog; the toast says "Account Created" iff registering and "Signed In" iff signing in |
| AuthModal.Dialog.HandlePhoneAuth | src/components/AuthModal.tsx:56-70 | the first submit sends the code to the entered phone and keeps the dialog open; a submit after that closes it |
| AuthModal.Dialog.Submit | src/components/AuthModal.tsx:252 | on email the submit closes with "Account Created" or "Signed In" by mode and leaves the sent flag; on phone it closes iff the code was sent, with "Phone Verified", and otherwise sends it with "OTP Sent"; mode, auth type, form and password visibility stay |
| AuthModal.Dialog.ResetForm | src/components/AuthModal.tsx:72-82 | the form is emptied and the sent and show-password flags cleared; mode and auth type stay |
| AuthModal.Dialog.SwitchMode | src/components/AuthModal.tsx:84-87 | the mode flips and the form is reset |
| AuthModal.Dialog.SelectAuthType | src/components/AuthModal.tsx:148-157 | the Email/Phone toggle sets the auth type and nothing else |
| AuthModal.Dialog.TogglePasswordVisibility | src/components/AuthModal.tsx:209 | the eye button flips password visibility and nothing else |
| AuthModal.Dialog.Label | src/components/AuthModal.tsx:254-257 | on phone the button reads "Verify OTP" iff the code was sent; on email it reads "Sign In" iff signing in |
| AuthModal.SwitchModeTwice | src/components/AuthModal.tsx:84-87 | switching mode twice restores the mode and leaves a reset form |
| AuthModal.TogglePasswordTwice | src/components/AuthModal.tsx:209 | toggling visibility twice restores it |
| AuthModal.PhoneFlow | src/components/AuthModal.tsx:56-70 | on phone, the first submit does not close (`closedFirst` is false) and the label between is "Verify OTP"; the second submit closes (`closedSecond` is true) |
| Typewriter.Phrase | src/components/Typewriter.tsx:16 | the current phrase is the normal part, one space, then the bold part: the normal part is its prefix, the character after it is a space and the rest is the bold part |
| Typewriter.Previous | src/components/Typewriter.tsx:33 | the phrase before `p` is the one that advancing modulo 3 turns into `p` |
| Typewriter.Delay | src/components/Typewriter.tsx:17 | the tick delay is 50 while deleting and 100 while typing |
| Typewriter.Step | src/components/Typewriter.tsx:19-36 | a typing tick moves the position up by one; a deleting tick moves it down by one; the phrase index stays in 0..2 and changes only on a deleting tick at position 0 |
| Typewriter.TimerFires | src/components/Typewriter.tsx:25 | the pending one-second timeout starts deleting; without one nothing changes |
| Typewriter.StartReachable | src/components/Typewriter.tsx:10-13 | the initial state satisfies the reachability invariant |
| Typewriter.StepPreservesReachable | src/components/Typewriter.tsx:19-36 | a tick keeps the invariant: the text is the phrase cut at the position, except right after a wrap |
| Typewriter.TimerPreservesReachable | src/components/Typewriter.tsx:25 | the delete timeout keeps the invariant |
| Typewriter.TypedIsPrefix | src/components/Typewriter.tsx:21-28 | outside the wrap tick the typed text is a prefix of the current phrase, as long as the position allows |
| Typewriter.TypingTick | src/components/Typewriter.tsx:21-26 | a typing tick at position k shows the first k + 1 characters, and the delete becomes pending once the whole phrase is typed |
| Typewriter.DeletingTick | src/components/Typewriter.tsx:28-29 | a deleting tick above position 0 cuts one more character and keeps deleting |
| Typewriter.TypingProgress | src/components/Typewriter.tsx:21-26 | k ticks into a phrase the text is its first k characters, and the switch to deleting is pending iff the whole phrase was typed |
| Typewriter.DeletingProgress | src/components/Typewriter.tsx:28-29 | k deleting ticks from position m leave the phrase cut at m - k |
| Typewriter.DeleteAndWrap | src/components/Typewriter.tsx:28-34 | deleting from position m takes m ticks to reach 0, and two more ticks start the next phrase |
| Typewriter.WrapToNext | src/components/Typewriter.tsx:31-34 | from position 0 while deleting, two ticks reach the start of the next phrase |
| Typewriter.Cycle | src/components/Typewriter.tsx:15-39 | however long the typing runs before the timeout fires, typing, deleting and two more ticks reach the start of the next phrase |
| Typewriter.WrapShowsPreviousPhrase | src/components/Typewriter.tsx:28 | the deleting tick at position 0 slices to -1, so for one tick the text is the finished phrase minus its last character |
| Typewriter.RenderSplit | src/components/Typewriter.tsx:44-52 | text no longer than the normal part is shown as normal with an empty bold span; longer text shows the whole normal part, and in bold whatever follows the character after it |
| Typewriter.WrapTickRender | src/components/Typewriter.tsx:28-52 | at the wrap tick from the first phrase the index names the second phrase while the text is still "Hostel Livin", so "Comfort" is shown normal and "ivin" bold |
| Typewriter.RenderSplitReassembles | src/components/Typewriter.tsx:44-52 | for a prefix of the phrase, the spans are prefixes of the normal and bold parts and reassemble, with the space, into the typed text |
| Typewriter.RenderedIsPrefixOfPhrase | src/components/Typewriter.tsx:41-52 | in every reachable state outside the wrap tick, both rendered spans are prefixes of their parts |
| Typewriter.Headline.constructor | src/components/Typewriter.tsx:10-13 | the headline starts at phrase 0, position 0, typing, with nothing typed |
| Typewriter.Headline.CurrentDelay | src/components/Typewriter.tsx:17 | the headline waits the delay of its state: 50 ms before the next tick while deleting, 100 ms while typing |
| Typewriter.Headline.Tick | src/components/Typewriter.tsx:19-36 | one tick moves the state by one step and keeps the invariant |
| Typewriter.Headline.DeleteTimerFires | src/components/Typewriter.tsx:25 | the one-second timeout moves the state as the timer event does and keeps the invariant |
| Typewriter.Headline.Rendered | src/components/Typewriter.tsx:41-52 | the spans are the split of the typed text at the current phrase's normal part, wrap tick included (so `RenderSplit` and `WrapTickRender` apply); outside the wrap tick both are prefixes of the phrase's parts |

## Left out

- JsText.ParseInt: reads a leading run of ASCII decimal digits only; leading whitespace, a sign, a `0x` prefix and digits beyond ASCII are not modelled, because no bucket string uses them.
- JsText.ToLower: maps ASCII letters only; full Unicode case mapping is not modelled.
- JavaScript numbers are doubles. Prices, durations, bed counts and the countdown are modelled as unbounded `int`/`nat`, so rounding, precision limits, fractions and `NaN` in arithmetic are not modelled. `NaN` from `parseInt` is modelled as `None`.
- A Dafny `string` is a sequence of Unicode scalar values, while JavaScript strings are UTF-16 code units. Lengths, `slice` positions and the Typewriter's character positions therefore count code points. They differ from the source only for characters outside the Basic Multilingual Plane, which no phrase or sample text contains.
- Timers are events, not time. The one-second countdown interval, the tick timeout and the one-second delete timeout are method calls the environment makes in any order. The 2000 ms simulated verification is `FinishVerification`. Delays are values (`Typewriter.Delay`). Interleavings and durations are not modelled.
- The interval cleanup and the timeout cleanup are not modelled, and neither are React's batching and re-render order. Every handler sees the state its closure captured, and the typewriter tick uses the position it captured.
- Focus management through `inputRefs` (auto-advance on input, back on Backspace) changes only DOM focus, so it is left out.
- Toast descriptions, the `onVerificationSuccess` and `onClose` callbacks, navigation and the Google sign-in stub are reported as out-parameters (`closed`, `toast`, `sent`, `started`) or left out.
- Floating-point figures are left out: occupancy percentages (`Math.round` of a division), revenue in lakhs (`toFixed`), ratings and every `toLocaleString` output.
- The room type, amenities, gender and check-in filters are collected by the filter form but never read by `handleSearch`. The model keeps them as fields of `SearchFilters`, and the search ignores them.
- Home's own typing effect (`Home.tsx` lines 93-122) drives a `typedText` that the page never renders, so it is left out; the rendered headline is `Typewriter`.
- Booking dates (date-fns), images and ratings are display only and no rule reads them, so they are left out. The booking action handlers show toasts, and Book Again also navigates to the search page (`navigate("/search")`). The model records which actions a status offers (`Bookings.Actions`); the toasts and the navigation are left out.
- `SearchFilters.tsx`, Dashboard, Footer, Navigation, HostelDetails, BookingPage, Register and HostelCard are not part of this model; they hold presentation, charts and static data.
- JSX markup, styling and icons are left out.
