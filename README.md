# Cab booking lifecycle and fleet tables

This project models the cab part of the ToursAndTravelsManagement web application (ASP.NET Core MVC, EF Core). It covers two controllers:

- `AdminCabController` lets an administrator keep the fleet tables: cabs, cities, routes, and the price of a cab on a route for a journey type. The administrator also moves bookings through their lifecycle.
- `CabController` lets a customer or a guest search for cabs, book one and cancel a booking.

The database is one object, `CabStore.Store`, with five tables. Each table is a `map` from primary key to an immutable record (`Models`). Every state-changing POST action is a method on the store. The search is also a POST action, but it reads only and is a function (below). Its `modifies` clause names the tables it may change. Its `ensures` says what it answers and gives the full new state of those tables. Every action keeps `Store.Valid()`, which requires that:

- every record carries its own key;
- no two active cabs share a registration number;
- no route starts and ends in the same city;
- no cab has two live bookings on the same calendar day.

The read-only selections are pure functions in `CabQueries`: the search, the featured cabs, the similar offers and the index listing. The state machine of a booking and the cab-status rule are in `BookingRules`. Their consequences are proved as lemmas over whole sequences of status changes.

Inputs that the application gets from its environment are parameters:

- the clock, passed as `now: DateTime`, a calendar day and a time within it (in ticks, below one day);
- the administrator's user name, `userName`;
- the signed-in customer, `Option<User>`;
- the outcome of model validation, `modelValid`;
- the booking number, which the application draws at random.

Modules: `Common` (option, date-time, table order and LINQ helpers), `Enums`, `Models`, `BookingRules`, `CabStore`, `CabQueries`.

## Model

| member | source | states |
|---|---|---|
| Enums.Code | ToursAndTravelsManagement/Enums/JourneyType.cs:29-36 | every booking status has the integer value 1 to 5 that C# assigns it |
| BookingRules.IsValidStatusTransition | ToursAndTravelsManagement/Controllers/AdminCabController.cs:948-961 | an allowed step strictly raises the status code, so there are no self-loops; no step leaves Completed or Cancelled; a step is allowed iff the booking has not ended and the step either cancels it or advances it exactly one stage |
| BookingRules.TerminalIffNoSuccessor | ToursAndTravelsManagement/Controllers/AdminCabController.cs:953-957 | a status has no allowed successor iff it is Completed or Cancelled |
| BookingRules.ChainAdvances | ToursAndTravelsManagement/Controllers/AdminCabController.cs:948-961 | along any sequence of allowed steps the status code rises by at least one per step |
| BookingRules.AtMostThreeStatusChanges | ToursAndTravelsManagement/Controllers/AdminCabController.cs:948-961 | through the table a booking changes status at most three times, and only its last status can be terminal |
| BookingRules.HeldCabFreedAtEnd | ToursAndTravelsManagement/Controllers/AdminCabController.cs:963-987 | considering only this booking's own status changes: once it is Confirmed or InProgress with its cab Booked, every sequence of allowed steps keeps the cab Booked until the booking ends and leaves it Available after |
| BookingRules.CabStatusOverLifecycle | ToursAndTravelsManagement/Controllers/AdminCabController.cs:963-987 | considering only this booking's own status changes, for a booking that starts Pending: the cab keeps its status unless the booking is confirmed; after confirmation the cab is Booked until the booking ends and Available after |
| BookingRules.AddingBookingKeepsUnique | ToursAndTravelsManagement/Controllers/CabController.cs:347-357 | adding a live booking under a new key keeps "one live booking per cab per day" iff the existing-booking query finds nothing |
| BookingRules.AdvancingKeepsUnique | ToursAndTravelsManagement/Controllers/AdminCabController.cs:926-929 | a change that keeps every booking's key, cab, date and active flag and never lowers a status keeps "one live booking per cab per day", and a Cancelled booking stays Cancelled |
| CabStore.AddingCabKeepsDistinct | ToursAndTravelsManagement/Controllers/AdminCabController.cs:107-115 | adding an active cab under a new key keeps active registration numbers distinct iff CreateCab's query finds no active cab with that number |
| CabStore.EditingCabKeepsDistinct | ToursAndTravelsManagement/Controllers/AdminCabController.cs:158-168 | replacing a stored cab by an active one keeps active registration numbers distinct iff EditCab's query finds no other active cab with that number |
| CabStore.AddingRouteKeepsPairsDistinct | ToursAndTravelsManagement/Controllers/AdminCabController.cs:361-374 | adding an active route under a new key keeps active city pairs distinct iff CreateRoute's query finds no active route between the same cities |
| CabStore.AddingPriceKeepsTriplesDistinct | ToursAndTravelsManagement/Controllers/AdminCabController.cs:567-580 | adding an active price under a new key keeps active (cab, route, journey type) triples distinct iff CreateCabPrice's query finds none |
| CabStore.EditRouteCanDuplicatePair | ToursAndTravelsManagement/Controllers/AdminCabController.cs:416-453 | there is a table with distinct active city pairs and a form that passes all of EditRoute's checks whose edit leaves two active routes between the same cities |
| CabStore.EditCabPriceCanDuplicateTriple | ToursAndTravelsManagement/Controllers/AdminCabController.cs:620-655 | there is a table with distinct active price triples and a form that passes all of EditCabPrice's checks whose edit leaves two active prices for the same cab, route and journey type |
| CabStore.DeactivateCab | ToursAndTravelsManagement/Controllers/AdminCabController.cs:195-207 | soft delete: only the cab under the id has its active flag cleared; no key is added or removed; a missing id changes nothing |
| CabStore.DeactivateCity | ToursAndTravelsManagement/Controllers/AdminCabController.cs:311-323 | soft delete of a city, with the same frame |
| CabStore.DeactivateRoute | ToursAndTravelsManagement/Controllers/AdminCabController.cs:457-469 | soft delete of a route, with the same frame |
| CabStore.DeactivatePrice | ToursAndTravelsManagement/Controllers/AdminCabController.cs:659-671 | soft delete of a price, with the same frame |
| CabStore.DeleteIsIdempotent | ToursAndTravelsManagement/Controllers/AdminCabController.cs:195-207 | in each of the four tables, deleting twice is the same as deleting once |
| CabStore.ToggleAvailable | ToursAndTravelsManagement/Controllers/AdminCabController.cs:674-686 | only the price under the id changes, and only its availability flag, which is negated; a missing id changes nothing |
| CabStore.ToggleAvailableTwice | ToursAndTravelsManagement/Controllers/AdminCabController.cs:674-686 | toggling a price's availability twice restores the table |
| CabStore.ToggleCab | ToursAndTravelsManagement/Controllers/AdminCabController.cs:210-225 | only the cab under the id changes, and only its status, which toggles |
| CabStore.ToggleCabStatusTwice | ToursAndTravelsManagement/Controllers/AdminCabController.cs:215-217 | the toggle always changes the status. Toggling twice restores Available and Unavailable, but a Booked cab or one in Maintenance ends up Unavailable |
| CabStore.NewBooking | ToursAndTravelsManagement/Controllers/CabController.cs:361-391 | the new booking is live, Pending and unpaid, holds the price's cab on the requested day, and is charged the listed price as both base and total. With a signed-in user it records the account id and user name and no guest details; with a guest it records the guest's name, e-mail and phone and has creator "Guest" |
| CabStore.Store.CreateCab | ToursAndTravelsManagement/Controllers/AdminCabController.cs:103-128 | invalid form: nothing changes. Registration number held by an active cab: refused, nothing changes. Otherwise exactly one active cab is added under a new key, stamped with the time and the user |
| CabStore.Store.EditCab | ToursAndTravelsManagement/Controllers/AdminCabController.cs:143-191 | id mismatch or missing cab: not found. Invalid form: shown again. Number held by another active cab: refused. Otherwise only the form's fields are copied onto the stored cab; key, driver id, creation stamp and active flag are kept |
| CabStore.Store.DeleteCab | ToursAndTravelsManagement/Controllers/AdminCabController.cs:195-207 | the cab table becomes `DeactivateCab` of the old one; the answer says whether the id was found |
| CabStore.Store.ToggleCabStatus | ToursAndTravelsManagement/Controllers/AdminCabController.cs:210-225 | the cab table becomes `ToggleCab` of the old one |
| CabStore.Store.CreateCity | ToursAndTravelsManagement/Controllers/AdminCabController.cs:248-263 | with a valid form exactly one active city is added under a new key, with no uniqueness check; otherwise nothing changes |
| CabStore.Store.EditCity | ToursAndTravelsManagement/Controllers/AdminCabController.cs:278-307 | id mismatch or missing city: not found. Invalid form: nothing changes. Otherwise name, state, country, description, image and popularity are copied, and the list of popular places is not |
| CabStore.Store.DeleteCity | ToursAndTravelsManagement/Controllers/AdminCabController.cs:311-323 | the city table becomes `DeactivateCity` of the old one |
| CabStore.Store.CreateRoute | ToursAndTravelsManagement/Controllers/AdminCabController.cs:352-390 | same-city route or invalid form: nothing changes. Active route between the same cities: refused. Otherwise exactly one active route is added. Distinct active city pairs are preserved |
| CabStore.Store.EditRoute | ToursAndTravelsManagement/Controllers/AdminCabController.cs:416-453 | id mismatch: not found. Same cities: shown again. Invalid form: shown again. Missing route: not found. Otherwise the form's fields are copied with no duplicate check |
| CabStore.Store.DeleteRoute | ToursAndTravelsManagement/Controllers/AdminCabController.cs:457-469 | the route table becomes `DeactivateRoute` of the old one |
| CabStore.Store.CreateCabPrice | ToursAndTravelsManagement/Controllers/AdminCabController.cs:563-596 | invalid form: nothing changes. Active price with the same cab, route and journey type: refused. Otherwise exactly one price is added, active and available. Distinct active triples are preserved |
| CabStore.Store.EditCabPrice | ToursAndTravelsManagement/Controllers/AdminCabController.cs:620-655 | id mismatch or missing price: not found. Invalid form: nothing changes. Otherwise the form's fields are copied with no duplicate check |
| CabStore.Store.DeleteCabPrice | ToursAndTravelsManagement/Controllers/AdminCabController.cs:659-671 | the price table becomes `DeactivatePrice` of the old one |
| CabStore.Store.ToggleAvailability | ToursAndTravelsManagement/Controllers/AdminCabController.cs:674-686 | the price table becomes `ToggleAvailable` of the old one |
| CabStore.Store.UpdateCabStatus | ToursAndTravelsManagement/Controllers/AdminCabController.cs:963-987 | with no cab id or a missing cab nothing changes. Otherwise only that cab's status changes: confirming books it; cancelling or completing frees it only if the booking was Confirmed or InProgress; anything else leaves it |
| CabStore.Store.UpdateBookingStatus | ToursAndTravelsManagement/Controllers/AdminCabController.cs:905-946 | unknown booking or a step the table forbids: neither the booking nor any cab changes. Otherwise the status and update stamp are set and the cab follows the cab-status rule. No status goes down and Completed and Cancelled bookings keep their status |
| CabStore.Store.UpdatePaymentStatus | ToursAndTravelsManagement/Controllers/AdminCabController.cs:1026-1047 | the payment status is always set; the payment date is set only when the new payment status is Completed and is kept otherwise; the update stamp is set; an unknown id changes nothing |
| CabStore.Store.AssignDriver | ToursAndTravelsManagement/Controllers/AdminCabController.cs:1051-1069 | driver name, driver phone and the update stamp are set on the booking; an unknown id changes nothing |
| CabStore.Store.CancelBookingByAdmin | ToursAndTravelsManagement/Controllers/AdminCabController.cs:1073-1098 | any found booking becomes Cancelled from any status, Completed included, with no transition check. Its cab becomes Available whenever it exists. An unknown id changes nothing |
| CabStore.Store.Book | ToursAndTravelsManagement/Controllers/CabController.cs:329-397 | unknown price, or a price whose cab, route or route cities are missing: not found. Invalid form: nothing changes. Cab already holding a live booking on that calendar day: refused, nothing changes. Otherwise exactly one `NewBooking` is added under a new key. The cab table is not touched |
| CabStore.Store.CancelBookingByCustomer | ToursAndTravelsManagement/Controllers/CabController.cs:540-577 | unknown id: not found. The booking's account id (possibly none) differs from the caller's (possibly none): forbidden. Not Pending or Confirmed: refused. In each of those cases nothing changes. Otherwise Cancelled with update stamp and caller's name, and the cab Available whenever it exists |
| CabQueries.FindRoute | ToursAndTravelsManagement/Controllers/CabController.cs:113-119 | none iff no active route has cities carrying the two names; otherwise the stored matching route with the smallest key |
| CabQueries.OfferedPrices | ToursAndTravelsManagement/Controllers/CabController.cs:128-143 | every result is a stored price on the route for the journey type, available and active, whose cab is Available and active and whose cab, route and route cities are present (the inner joins); every such stored price is a result; no result occurs more often than among the table's rows, so each row at most once |
| CabQueries.SearchResults | ToursAndTravelsManagement/Controllers/CabController.cs:113-143 | no result iff no active route joins cities with the two names. Otherwise the route is the matching one with the smallest key, and the results are exactly the offered stored prices on it, each row at most once |
| CabQueries.SearchResultsOnce | ToursAndTravelsManagement/Controllers/CabController.cs:128-143 | when every price carries its own key, the search lists no price twice |
| CabQueries.InsertKeepsOrder | ToursAndTravelsManagement/Controllers/CabController.cs:100 | inserting a cab into a list ordered by capacity, largest first, keeps it ordered |
| CabQueries.InsertKeepsCabs | ToursAndTravelsManagement/Controllers/CabController.cs:100 | inserting adds exactly the one cab to the list's multiset of cabs |
| CabQueries.SortOrdersByCapacity | ToursAndTravelsManagement/Controllers/CabController.cs:100 | `OrderByDescending(c => c.SeatingCapacity)` gives a permutation of its input ordered by seating capacity, largest first |
| CabQueries.TopByCapacity | ToursAndTravelsManagement/Controllers/CabController.cs:100-101 | exactly n of the input cabs, or all of them when there are fewer, each at most as often as in the input, ordered by capacity; an input cab is missing only when n cabs of at least its capacity are present |
| CabQueries.TopWhereByCapacity | ToursAndTravelsManagement/Controllers/CabController.cs:95-101 | at most n stored cabs satisfying the filter, each row at most once, ordered by capacity; a stored cab satisfying the filter is missing only when n cabs of at least its capacity are present |
| CabQueries.TopWhereCount | ToursAndTravelsManagement/Controllers/CabController.cs:95-101 | the top-n query keeps exactly n cabs, or every row satisfying the filter when there are fewer |
| CabQueries.FeaturedCabs | ToursAndTravelsManagement/Controllers/CabController.cs:95-102 | at most four stored cabs, each row at most once, each active, Available and with an available, active price, largest capacity first. A qualifying cab is missing only when four cabs of at least its capacity are shown |
| CabQueries.FeaturedCabsOnce | ToursAndTravelsManagement/Controllers/CabController.cs:95-102 | when every cab carries its own key, no cab is featured twice |
| CabQueries.CabDetails | ToursAndTravelsManagement/Controllers/CabController.cs:219-249 | not found iff the id is unknown or the price's cab, route or route cities are missing (the lookup's inner joins). At most three similar offers, each row at most once, never the viewed price: stored prices on the same route, available and active, whose cab is present and Available and whose route is present. Fewer than three only when there are no more |
| CabQueries.CabDetailsOnce | ToursAndTravelsManagement/Controllers/CabController.cs:235-243 | when every price carries its own key, no similar offer is suggested twice |
| CabQueries.IndexCabs | ToursAndTravelsManagement/Controllers/CabController.cs:48-51 | at most six stored cabs, each row at most once, each active and Available; fewer than six only when there are no more |
| CabQueries.IndexCabsOnce | ToursAndTravelsManagement/Controllers/CabController.cs:48-51 | when every cab carries its own key, the index lists no cab twice |

## Left out

- Persistence is left out: EF Core change tracking, `SaveChangesAsync`, async execution and the exceptions these may raise. Also the `try`/`catch` of UpdateBookingStatus, which in the model has no failing call to catch.
- `Include`/`ThenInclude` navigation becomes a lookup by id in the store's maps. An `Include` of a required reference is an inner join: a price whose cab, route or route cities are missing is dropped by the search and similar-offer filters, and is not found by CabDetails and Book. Foreign keys are not enforced: CreateCabPrice accepts a cab or route id that names no record.
- MVC and Identity plumbing is left out: views, redirects, TempData, ViewBag, anti-forgery. Model validation is the boolean `modelValid`. Identity is the signed-in `Option<User>`; the administrator's `User.Identity.Name` is the string `userName`.
- Book's check-then-insert is modelled sequentially. Two concurrent requests can both pass the existing-booking query, and the model does not capture that race.
- The clock is one parameter `now`. UpdatePaymentStatus reads the clock twice, for the payment date and the update date; the model takes both to be `now`.
- The booking number is drawn at random (a GUID prefix, Models/CabBooking.cs:14), so it is a parameter of Book.
- The identity column's key allocation is represented by `FreshKey`, a key above every key in use. The key the form posts on a create is ignored.
- A table scan without `OrderBy` returns rows in ascending key order (`Rows`). `FirstOrDefault` (route search) and `Take` (index, similar offers) are therefore deterministic in the model; SQL leaves that order unspecified.
- Cabs of equal capacity keep key order under `OrderByDescending`; SQL leaves the order of ties unspecified.
- String comparison is exact equality of character sequences; the database collation, such as case-insensitive matching, is not modelled.
- `decimal` money, distances and durations are integers. `TimeSpan` is a number of ticks.
- Enum values outside the declared members cannot occur: each enum is a datatype.
- Read-only pages are not modelled: dashboards, listings, booking details, ManageBookings with its text search, invoices, MyBookings, BookingConfirmation, CabInfo, the popular-city lists and the GET forms. The view-data loaders of the price forms are not modelled either.
- HomeController.cs (e-mail), Program.cs (configuration), Helpers/DateTimeHelper.cs (culture-dependent formatting), Models/CabBookingInvoice.cs (no logic), the migrations and ApplicationDbContext.cs are not part of this model. The database's unique indexes are not assumed: the invariants rest on the controllers' own checks.
- Commented-out code is not modelled.
