/** The cab tables and the state-changing actions of the two cab controllers.
    `Store` plays the part of the database context: each table is a map from
    primary key to record, and each state-changing POST action of
    AdminCabController and CabController is one method that reads and replaces
    those maps. The clock,
    the signed-in user and the outcome of model validation are parameters. */
module CabStore {
  import opened Common
  import opened Enums
  import opened Models
  import opened BookingRules

  /** Why an action refused a request that was otherwise well formed. */
  datatype Reason =
    | DuplicateRegistration
    | SameCities
    | DuplicateRoute
    | DuplicatePrice
    | InvalidTransition
    | AlreadyBooked
    | NotCancellable

  /** What an action answers: done, a new row's key, 404, 403, the form shown
      again because validation failed, or the form shown again with a reason. */
  datatype Outcome =
    | Done
    | Created(id: int)
    | NotFound
    | Forbidden
    | Invalid
    | Refused(reason: Reason)

  // ---------------------------------------------------------------------------
  // The checks the actions run against the tables
  // ---------------------------------------------------------------------------

  /** An active cab carries this registration number (CreateCab's query). */
  predicate ActiveCabHolds(cabs: map<int, Cab>, reg: string) {
    exists k :: k in cabs && cabs[k].registrationNumber == reg && cabs[k].isActive
  }

  /** An active cab other than `id` carries this registration number (EditCab's query). */
  predicate OtherActiveCabHolds(cabs: map<int, Cab>, reg: string, id: int) {
    exists k :: k in cabs && cabs[k].registrationNumber == reg && cabs[k].cabId != id && cabs[k].isActive
  }

  /** An active route goes from `fromCityId` to `toCityId` (CreateRoute's query). */
  predicate ActiveRouteBetween(routes: map<int, Route>, fromCityId: int, toCityId: int) {
    exists k :: k in routes && routes[k].fromCityId == fromCityId && routes[k].toCityId == toCityId && routes[k].isActive
  }

  /** An active price exists for this cab, route and journey type (CreateCabPrice's query). */
  predicate ActivePriceFor(prices: map<int, CabRoutePrice>, cabId: int, routeId: int, journeyType: JourneyType) {
    exists k :: k in prices && prices[k].cabId == cabId && prices[k].routeId == routeId &&
      prices[k].journeyType == journeyType && prices[k].isActive
  }

  // ---------------------------------------------------------------------------
  // Table invariants
  // ---------------------------------------------------------------------------

  /** No two active cabs share a registration number. */
  ghost predicate ActiveRegistrationsDistinct(cabs: map<int, Cab>) {
    forall i, j :: i in cabs && j in cabs && i != j && cabs[i].isActive && cabs[j].isActive ==>
      cabs[i].registrationNumber != cabs[j].registrationNumber
  }

  /** Every route joins two different cities. */
  ghost predicate RoutesJoinDistinctCities(routes: map<int, Route>) {
    forall k :: k in routes ==> routes[k].fromCityId != routes[k].toCityId
  }

  /** No two active routes join the same ordered city pair. CreateRoute keeps
      this; EditRoute does not check it. */
  ghost predicate ActiveRoutePairsDistinct(routes: map<int, Route>) {
    forall i, j :: i in routes && j in routes && i != j && routes[i].isActive && routes[j].isActive ==>
      routes[i].fromCityId != routes[j].fromCityId || routes[i].toCityId != routes[j].toCityId
  }

  /** No two active prices are for the same cab, route and journey type.
      CreateCabPrice keeps this; EditCabPrice does not check it. */
  ghost predicate ActivePriceTriplesDistinct(prices: map<int, CabRoutePrice>) {
    forall i, j :: i in prices && j in prices && i != j && prices[i].isActive && prices[j].isActive ==>
      prices[i].cabId != prices[j].cabId || prices[i].routeId != prices[j].routeId ||
      prices[i].journeyType != prices[j].journeyType
  }

  /** Adding an active cab under a new key keeps registration numbers distinct
      exactly when CreateCab's query finds no active cab with its number. */
  lemma AddingCabKeepsDistinct(cabs: map<int, Cab>, id: int, cab: Cab)
    requires ActiveRegistrationsDistinct(cabs) && id !in cabs && cab.isActive
    ensures ActiveRegistrationsDistinct(cabs[id := cab]) <==> !ActiveCabHolds(cabs, cab.registrationNumber)
  {
    var after := cabs[id := cab];
    if ActiveCabHolds(cabs, cab.registrationNumber) {
      var j :| j in cabs && cabs[j].registrationNumber == cab.registrationNumber && cabs[j].isActive;
      assert after[id] == cab && after[j] == cabs[j];
    }
  }

  /** Replacing the cab under `id` by an active cab keeps registration numbers
      distinct exactly when EditCab's query finds no other active cab with its
      number (the query compares stored keys, which are the cabs' ids). */
  lemma EditingCabKeepsDistinct(cabs: map<int, Cab>, id: int, cab: Cab)
    requires ActiveRegistrationsDistinct(cabs) && id in cabs && cab.isActive
    requires forall k :: k in cabs ==> cabs[k].cabId == k
    ensures ActiveRegistrationsDistinct(cabs[id := cab]) <==> !OtherActiveCabHolds(cabs, cab.registrationNumber, id)
  {
    var after := cabs[id := cab];
    if OtherActiveCabHolds(cabs, cab.registrationNumber, id) {
      var j :| j in cabs && cabs[j].registrationNumber == cab.registrationNumber && cabs[j].cabId != id && cabs[j].isActive;
      assert after[id] == cab && after[j] == cabs[j];
    } else {
      forall i, j | i in after && j in after && i != j && after[i].isActive && after[j].isActive
        ensures after[i].registrationNumber != after[j].registrationNumber
      {
        if i == id {
          assert cabs[j].cabId != id;
        } else if j == id {
          assert cabs[i].cabId != id;
        }
      }
    }
  }

  /** Adding an active route under a new key keeps active city pairs distinct
      exactly when CreateRoute's query finds no active route between its cities. */
  lemma AddingRouteKeepsPairsDistinct(routes: map<int, Route>, id: int, route: Route)
    requires ActiveRoutePairsDistinct(routes) && id !in routes && route.isActive
    ensures ActiveRoutePairsDistinct(routes[id := route]) <==> !ActiveRouteBetween(routes, route.fromCityId, route.toCityId)
  {
    var after := routes[id := route];
    if ActiveRouteBetween(routes, route.fromCityId, route.toCityId) {
      var j :| j in routes && routes[j].fromCityId == route.fromCityId && routes[j].toCityId == route.toCityId && routes[j].isActive;
      assert after[id] == route && after[j] == routes[j];
    }
  }

  /** Adding an active price under a new key keeps active (cab, route, journey
      type) triples distinct exactly when CreateCabPrice's query finds none. */
  lemma AddingPriceKeepsTriplesDistinct(prices: map<int, CabRoutePrice>, id: int, price: CabRoutePrice)
    requires ActivePriceTriplesDistinct(prices) && id !in prices && price.isActive
    ensures ActivePriceTriplesDistinct(prices[id := price]) <==> !ActivePriceFor(prices, price.cabId, price.routeId, price.journeyType)
  {
    var after := prices[id := price];
    if ActivePriceFor(prices, price.cabId, price.routeId, price.journeyType) {
      var j :| j in prices && prices[j].cabId == price.cabId && prices[j].routeId == price.routeId &&
        prices[j].journeyType == price.journeyType && prices[j].isActive;
      assert after[id] == price && after[j] == prices[j];
    }
  }

  /** EditRoute's checks do not keep active city pairs distinct: a table with
      distinct pairs and a form that passes every check of EditRoute (matching
      id, two different cities, a stored route) whose edit gives two active
      routes between the same cities. */
  lemma EditRouteCanDuplicatePair()
    ensures exists routes: map<int, Route>, form: Route ::
      && ActiveRoutePairsDistinct(routes)
      && form.routeId in routes && form.fromCityId != form.toCityId
      && !ActiveRoutePairsDistinct(routes[form.routeId := EditedRoute(routes[form.routeId], form)])
  {
    var first := Route(1, 10, 20, 0, 0, None, None, true, None, DateTime(0, 0));
    var second := first.(routeId := 2, toCityId := 30);
    var routes := map[1 := first, 2 := second];
    var form := second.(toCityId := 20);
    assert ActiveRoutePairsDistinct(routes) by {
      forall i, j | i in routes && j in routes && i != j
        ensures routes[i].toCityId != routes[j].toCityId
      {
        assert i == 1 || i == 2;
      }
    }
    var after := routes[2 := EditedRoute(routes[2], form)];
    assert after[1] == first && after[2].fromCityId == 10 && after[2].toCityId == 20 && after[2].isActive;
    assert !ActiveRoutePairsDistinct(after);
    assert form.routeId == 2 && after == routes[form.routeId := EditedRoute(routes[form.routeId], form)];
  }

  /** EditCabPrice's checks do not keep active price triples distinct: a table
      with distinct triples and a form that passes every check of EditCabPrice
      whose edit gives two active prices for the same cab, route and journey type. */
  lemma EditCabPriceCanDuplicateTriple()
    ensures exists prices: map<int, CabRoutePrice>, form: CabRoutePrice ::
      && ActivePriceTriplesDistinct(prices)
      && form.cabRoutePriceId in prices
      && !ActivePriceTriplesDistinct(prices[form.cabRoutePriceId := EditedPrice(prices[form.cabRoutePriceId], form)])
  {
    var first := CabRoutePrice(1, 7, 3, OneWay, 1000, None, None, None, None, None, true, None, DateTime(0, 0), true);
    var second := first.(cabRoutePriceId := 2, journeyType := Local);
    var prices := map[1 := first, 2 := second];
    var form := second.(journeyType := OneWay);
    assert ActivePriceTriplesDistinct(prices) by {
      forall i, j | i in prices && j in prices && i != j
        ensures prices[i].journeyType != prices[j].journeyType
      {
        assert i == 1 || i == 2;
      }
    }
    var after := prices[2 := EditedPrice(prices[2], form)];
    assert after[1] == first && after[2].journeyType == OneWay && after[2].cabId == 7 && after[2].routeId == 3 && after[2].isActive;
    assert !ActivePriceTriplesDistinct(after);
    assert form.cabRoutePriceId == 2 && after == prices[form.cabRoutePriceId := EditedPrice(prices[form.cabRoutePriceId], form)];
  }

  // ---------------------------------------------------------------------------
  // Record updates the actions perform
  // ---------------------------------------------------------------------------

  /** EditCab: the form's values copied onto the stored cab. The key, the
      driver id, the creation stamp and the active flag stay as stored. */
  function EditedCab(stored: Cab, form: Cab): Cab {
    stored.(name := form.name, cabType := form.cabType, model := form.model,
            registrationNumber := form.registrationNumber, year := form.year,
            hasAC := form.hasAC, seatingCapacity := form.seatingCapacity,
            basePricePerKM := form.basePricePerKM, features := form.features,
            imageUrl := form.imageUrl, status := form.status,
            driverName := form.driverName, driverPhone := form.driverPhone)
  }

  /** EditCity: the form's values copied onto the stored city (the list of
      popular places is not among them). */
  function EditedCity(stored: City, form: City): City {
    stored.(name := form.name, state := form.state, country := form.country,
            description := form.description, imageUrl := form.imageUrl,
            isPopular := form.isPopular)
  }

  /** EditRoute: the form's values copied onto the stored route. */
  function EditedRoute(stored: Route, form: Route): Route {
    stored.(fromCityId := form.fromCityId, toCityId := form.toCityId,
            distance := form.distance, estimatedTime := form.estimatedTime,
            routeDescription := form.routeDescription, popularStops := form.popularStops)
  }

  /** EditCabPrice: the form's values copied onto the stored price. */
  function EditedPrice(stored: CabRoutePrice, form: CabRoutePrice): CabRoutePrice {
    stored.(cabId := form.cabId, routeId := form.routeId, journeyType := form.journeyType,
            price := form.price, includedServices := form.includedServices,
            excludedServices := form.excludedServices, extraCharges := form.extraCharges,
            notes := form.notes, termsAndConditions := form.termsAndConditions,
            isAvailable := form.isAvailable)
  }

  // The four Delete actions are soft deletes of the same shape, one per
  // table: the record under `id`, if any, is marked inactive; no other record
  // changes and no record is removed.

  /** DeleteCab's soft delete. */
  function DeactivateCab(cabs: map<int, Cab>, id: int): (r: map<int, Cab>)
    ensures r.Keys == cabs.Keys
    ensures forall k :: k in r && k != id ==> r[k] == cabs[k]
    ensures id in cabs ==> r[id] == cabs[id].(isActive := false)
  {
    if id in cabs then cabs[id := cabs[id].(isActive := false)] else cabs
  }

  /** DeleteCity's soft delete. */
  function DeactivateCity(cities: map<int, City>, id: int): (r: map<int, City>)
    ensures r.Keys == cities.Keys
    ensures forall k :: k in r && k != id ==> r[k] == cities[k]
    ensures id in cities ==> r[id] == cities[id].(isActive := false)
  {
    if id in cities then cities[id := cities[id].(isActive := false)] else cities
  }

  /** DeleteRoute's soft delete. */
  function DeactivateRoute(routes: map<int, Route>, id: int): (r: map<int, Route>)
    ensures r.Keys == routes.Keys
    ensures forall k :: k in r && k != id ==> r[k] == routes[k]
    ensures id in routes ==> r[id] == routes[id].(isActive := false)
  {
    if id in routes then routes[id := routes[id].(isActive := false)] else routes
  }

  /** DeleteCabPrice's soft delete. */
  function DeactivatePrice(prices: map<int, CabRoutePrice>, id: int): (r: map<int, CabRoutePrice>)
    ensures r.Keys == prices.Keys
    ensures forall k :: k in r && k != id ==> r[k] == prices[k]
    ensures id in prices ==> r[id] == prices[id].(isActive := false)
  {
    if id in prices then prices[id := prices[id].(isActive := false)] else prices
  }

  /** Deleting twice is deleting once, in every table. */
  lemma DeleteIsIdempotent(cabs: map<int, Cab>, cities: map<int, City>, routes: map<int, Route>,
                           prices: map<int, CabRoutePrice>, id: int)
    ensures DeactivateCab(DeactivateCab(cabs, id), id) == DeactivateCab(cabs, id)
    ensures DeactivateCity(DeactivateCity(cities, id), id) == DeactivateCity(cities, id)
    ensures DeactivateRoute(DeactivateRoute(routes, id), id) == DeactivateRoute(routes, id)
    ensures DeactivatePrice(DeactivatePrice(prices, id), id) == DeactivatePrice(prices, id)
  {
  }

  /** ToggleAvailability: the price under `id`, if any, has its availability
      negated; nothing else changes. */
  function ToggleAvailable(prices: map<int, CabRoutePrice>, id: int): (r: map<int, CabRoutePrice>)
    ensures r.Keys == prices.Keys
    ensures forall k :: k in r && k != id ==> r[k] == prices[k]
    ensures id in prices ==> r[id].isAvailable != prices[id].isAvailable && r[id].(isAvailable := prices[id].isAvailable) == prices[id]
  {
    if id in prices then prices[id := prices[id].(isAvailable := !prices[id].isAvailable)] else prices
  }

  /** Toggling a price's availability twice restores the table. */
  lemma ToggleAvailableTwice(prices: map<int, CabRoutePrice>, id: int)
    ensures ToggleAvailable(ToggleAvailable(prices, id), id) == prices
  {
    if id in prices {
      var once := ToggleAvailable(prices, id);
      assert once[id].(isAvailable := !once[id].isAvailable) == prices[id];
    }
  }

  /** ToggleCabStatus: Available becomes Unavailable, every other status Available. */
  function ToggledCabStatus(s: CabStatus): CabStatus {
    if s == Available then Unavailable else Available
  }

  /** Toggling twice restores Available and Unavailable, but a Booked cab or one
      in Maintenance ends up Unavailable: the toggle is no undo for them. */
  lemma ToggleCabStatusTwice(s: CabStatus)
    ensures ToggledCabStatus(ToggledCabStatus(s)) == if s == Available then Available else Unavailable
    ensures ToggledCabStatus(s) != s
  {
  }

  /** ToggleCabStatus on the table: the cab under `id`, if any, has its status
      toggled; nothing else changes. */
  function ToggleCab(cabs: map<int, Cab>, id: int): (r: map<int, Cab>)
    ensures r.Keys == cabs.Keys
    ensures forall k :: k in r && k != id ==> r[k] == cabs[k]
    ensures id in cabs ==> r[id] == cabs[id].(status := ToggledCabStatus(cabs[id].status))
  {
    if id in cabs then cabs[id := cabs[id].(status := ToggledCabStatus(cabs[id].status))] else cabs
  }

  /** The cab table after UpdateCabStatus: nothing changes for a booking without
      a cab or whose cab is missing; otherwise the cab's status follows `CabStatusAfter`. */
  function SyncedCabs(cabs: map<int, Cab>, cabId: Option<int>, newStatus: CabBookingStatus, oldStatus: CabBookingStatus): map<int, Cab> {
    if cabId.Some? && cabId.value in cabs then
      cabs[cabId.value := cabs[cabId.value].(status := CabStatusAfter(cabs[cabId.value].status, newStatus, oldStatus))]
    else cabs
  }

  /** The cab table after a cancellation frees the booking's cab, if it exists. */
  function FreedCabs(cabs: map<int, Cab>, cabId: Option<int>): map<int, Cab> {
    if cabId.Some? && cabId.value in cabs then cabs[cabId.value := cabs[cabId.value].(status := Available)]
    else cabs
  }

  /** The booking CabController.Book inserts. It is live, pending and unpaid,
      holds the price's cab on the requested day, is charged the listed price,
      and records either the signed-in account or the guest's contact details. */
  function NewBooking(id: int, request: BookingRequest, price: CabRoutePrice, now: DateTime,
                      user: Option<User>, bookingNumber: string): (b: CabBooking)
    ensures b.cabBookingId == id && b.cabRoutePriceId == request.cabRoutePriceId
    ensures b.status == Pending && b.paymentStatus == PaymentPending && b.isActive
    ensures IsLive(b) && HoldsSlot(b, price.cabId, request.travelDate.date)
    ensures b.basePrice == price.price && b.totalPrice == price.price
    ensures user.Some? ==>
      b.userId == Some(user.value.id) && b.createdBy == Some(user.value.userName) &&
      b.guestName == None && b.guestEmail == None && b.guestPhone == None
    ensures user.None? ==>
      b.userId == None && b.createdBy == Some("Guest") &&
      b.guestName == request.guestName && b.guestEmail == request.guestEmail && b.guestPhone == request.guestPhone
  {
    var b := CabBooking(
      cabBookingId := id, bookingNumber := bookingNumber,
      userId := None, guestName := None, guestEmail := None, guestPhone := None,
      cabRoutePriceId := request.cabRoutePriceId, travelDate := request.travelDate,
      pickupTime := request.pickupTime, pickupLocation := request.pickupLocation,
      dropoffLocation := request.dropoffLocation, numberOfPassengers := request.numberOfPassengers,
      additionalNotes := request.additionalNotes,
      basePrice := price.price, extraCharges := 0, discount := 0, totalPrice := price.price,
      status := Pending, paymentMethod := request.paymentMethod, paymentStatus := PaymentPending,
      paymentTransactionId := None, paymentDate := None,
      assignedDriverId := None, assignedDriverName := None, assignedDriverPhone := None,
      vehicleNumber := None, createdBy := None, createdDate := now,
      updatedDate := None, updatedBy := None, isActive := true, cabId := Some(price.cabId));
    if user.Some? then
      b.(userId := Some(user.value.id), createdBy := Some(user.value.userName))
    else
      b.(guestName := request.guestName, guestEmail := request.guestEmail,
         guestPhone := request.guestPhone, createdBy := Some("Guest"))
  }

  // ---------------------------------------------------------------------------
  // The store's invariant, table by table
  // ---------------------------------------------------------------------------

  /** Every cab carries its key, and active cabs' registration numbers are distinct. */
  ghost predicate CabsValid(cabs: map<int, Cab>) {
    (forall k :: k in cabs ==> cabs[k].cabId == k) && ActiveRegistrationsDistinct(cabs)
  }

  ghost predicate CitiesValid(cities: map<int, City>) {
    forall k :: k in cities ==> cities[k].cityId == k
  }

  /** Every route carries its key and joins two different cities. */
  ghost predicate RoutesValid(routes: map<int, Route>) {
    (forall k :: k in routes ==> routes[k].routeId == k) && RoutesJoinDistinctCities(routes)
  }

  ghost predicate PricesValid(prices: map<int, CabRoutePrice>) {
    forall k :: k in prices ==> prices[k].cabRoutePriceId == k
  }

  /** Every booking carries its key, and no cab has two live bookings on one day. */
  ghost predicate BookingsValid(bookings: map<int, CabBooking>) {
    (forall k :: k in bookings ==> bookings[k].cabBookingId == k) && LiveBookingsUnique(bookings)
  }

  /** Changing only a cab's status keeps the cab table valid. */
  lemma CabStatusChangeKeepsValid(cabs: map<int, Cab>, id: int, status: CabStatus)
    requires CabsValid(cabs) && id in cabs
    ensures CabsValid(cabs[id := cabs[id].(status := status)])
  {
    var after := cabs[id := cabs[id].(status := status)];
    forall i, j | i in after && j in after && i != j && after[i].isActive && after[j].isActive
      ensures after[i].registrationNumber != after[j].registrationNumber
    {
      assert after[i].registrationNumber == cabs[i].registrationNumber && after[i].isActive == cabs[i].isActive;
      assert after[j].registrationNumber == cabs[j].registrationNumber && after[j].isActive == cabs[j].isActive;
    }
  }

  /** Replacing one booking by a record with the same key, cab, travel date and
      active flag and a status at least as far along keeps the bookings table
      valid and is a step in which statuses only advance; when a terminal
      status is kept as well, terminal bookings keep their status. */
  lemma BookingReplacedKeepsValid(before: map<int, CabBooking>, id: int, b: CabBooking)
    requires BookingsValid(before) && id in before
    requires b.cabBookingId == id && b.cabId == before[id].cabId && b.travelDate == before[id].travelDate
    requires b.isActive == before[id].isActive && Code(before[id].status) <= Code(b.status)
    ensures BookingsValid(before[id := b])
    ensures StatusesAdvance(before, before[id := b])
    ensures (IsTerminal(before[id].status) ==> b.status == before[id].status) ==> TerminalsKept(before, before[id := b])
  {
    AdvancingKeepsUnique(before, before[id := b]);
  }

  class Store {
    var cabs: map<int, Cab>
    var cities: map<int, City>
    var routes: map<int, Route>
    var prices: map<int, CabRoutePrice>
    var bookings: map<int, CabBooking>

    /** The store's invariant: every record carries its own key; active cabs'
        registration numbers are distinct; no route is a loop; and no cab has
        two live bookings on the same calendar day. */
    ghost predicate Valid()
      reads this
    {
      CabsValid(cabs) && CitiesValid(cities) && RoutesValid(routes) && PricesValid(prices) && BookingsValid(bookings)
    }

    /** An empty database. */
    constructor ()
      ensures Valid()
      ensures cabs == map[] && cities == map[] && routes == map[] && prices == map[] && bookings == map[]
    {
      cabs, cities, routes, prices, bookings := map[], map[], map[], map[], map[];
    }

    // -------------------------------------------------------------------------
    // Cabs (AdminCabController)
    // -------------------------------------------------------------------------

    /** CreateCab: refuses a registration number an active cab already has;
        otherwise adds the cab, active, under a new key. */
    method CreateCab(cab: Cab, modelValid: bool, now: DateTime, userName: string) returns (outcome: Outcome)
      requires Valid()
      modifies this`cabs
      ensures Valid()
      ensures outcome ==
        if !modelValid then Invalid
        else if ActiveCabHolds(old(cabs), cab.registrationNumber) then Refused(DuplicateRegistration)
        else Created(FreshKey(old(cabs)))
      ensures outcome.Created? ==>
        outcome.id !in old(cabs) &&
        cabs == old(cabs)[outcome.id := cab.(cabId := outcome.id, createdDate := now,
                                              createdBy := Some(userName), isActive := true)]
      ensures !outcome.Created? ==> cabs == old(cabs)
    {
      if !modelValid {
        return Invalid;
      }
      if ActiveCabHolds(cabs, cab.registrationNumber) {
        return Refused(DuplicateRegistration);
      }
      var id := FreshKey(cabs);
      cabs := cabs[id := cab.(cabId := id, createdDate := now, createdBy := Some(userName), isActive := true)];
      outcome := Created(id);
    }

    /** EditCab: refuses a registration number another active cab has;
        otherwise copies the form onto the stored cab. */
    method EditCab(id: int, updated: Cab, modelValid: bool) returns (outcome: Outcome)
      requires Valid()
      modifies this`cabs
      ensures Valid()
      ensures outcome ==
        if id != updated.cabId then NotFound
        else if !modelValid then Invalid
        else if id !in old(cabs) then NotFound
        else if OtherActiveCabHolds(old(cabs), updated.registrationNumber, id) then Refused(DuplicateRegistration)
        else Done
      ensures outcome == Done ==> cabs == old(cabs)[id := EditedCab(old(cabs)[id], updated)]
      ensures outcome != Done ==> cabs == old(cabs)
    {
      if id != updated.cabId {
        return NotFound;
      }
      if !modelValid {
        return Invalid;
      }
      if id !in cabs {
        return NotFound;
      }
      if OtherActiveCabHolds(cabs, updated.registrationNumber, id) {
        return Refused(DuplicateRegistration);
      }
      cabs := cabs[id := EditedCab(cabs[id], updated)];
      outcome := Done;
    }

    /** DeleteCab: a soft delete; a missing key changes nothing. */
    method DeleteCab(id: int) returns (found: bool)
      requires Valid()
      modifies this`cabs
      ensures Valid()
      ensures found == (id in old(cabs))
      ensures cabs == DeactivateCab(old(cabs), id)
    {
      found := id in cabs;
      cabs := DeactivateCab(cabs, id);
    }

    /** ToggleCabStatus: Available becomes Unavailable, anything else Available. */
    method ToggleCabStatus(id: int) returns (found: bool)
      requires Valid()
      modifies this`cabs
      ensures Valid()
      ensures found == (id in old(cabs))
      ensures cabs == ToggleCab(old(cabs), id)
    {
      found := id in cabs;
      cabs := ToggleCab(cabs, id);
    }

    // -------------------------------------------------------------------------
    // Cities (AdminCabController)
    // -------------------------------------------------------------------------

    /** CreateCity: adds the city, active, under a new key; no uniqueness check. */
    method CreateCity(city: City, modelValid: bool, now: DateTime, userName: string) returns (outcome: Outcome)
      requires Valid()
      modifies this`cities
      ensures Valid()
      ensures outcome == if modelValid then Created(FreshKey(old(cities))) else Invalid
      ensures outcome.Created? ==>
        outcome.id !in old(cities) &&
        cities == old(cities)[outcome.id := city.(cityId := outcome.id, createdDate := now,
                                                   createdBy := Some(userName), isActive := true)]
      ensures !outcome.Created? ==> cities == old(cities)
    {
      if !modelValid {
        return Invalid;
      }
      var id := FreshKey(cities);
      cities := cities[id := city.(cityId := id, createdDate := now, createdBy := Some(userName), isActive := true)];
      outcome := Created(id);
    }

    /** EditCity: copies the form onto the stored city. */
    method EditCity(id: int, updated: City, modelValid: bool) returns (outcome: Outcome)
      requires Valid()
      modifies this`cities
      ensures Valid()
      ensures outcome ==
        if id != updated.cityId then NotFound
        else if !modelValid then Invalid
        else if id !in old(cities) then NotFound
        else Done
      ensures outcome == Done ==> cities == old(cities)[id := EditedCity(old(cities)[id], updated)]
      ensures outcome != Done ==> cities == old(cities)
    {
      if id != updated.cityId {
        return NotFound;
      }
      if !modelValid {
        return Invalid;
      }
      if id !in cities {
        return NotFound;
      }
      cities := cities[id := EditedCity(cities[id], updated)];
      outcome := Done;
    }

    /** DeleteCity: a soft delete; a missing key changes nothing. */
    method DeleteCity(id: int) returns (found: bool)
      requires Valid()
      modifies this`cities
      ensures Valid()
      ensures found == (id in old(cities))
      ensures cities == DeactivateCity(old(cities), id)
    {
      found := id in cities;
      cities := DeactivateCity(cities, id);
    }

    // -------------------------------------------------------------------------
    // Routes (AdminCabController)
    // -------------------------------------------------------------------------

    /** CreateRoute: refuses a route whose two ends are the same city and a
        city pair an active route already joins; otherwise adds the route. */
    method CreateRoute(route: Route, modelValid: bool, now: DateTime, userName: string) returns (outcome: Outcome)
      requires Valid()
      modifies this`routes
      ensures Valid()
      ensures outcome ==
        if route.fromCityId == route.toCityId then Refused(SameCities)
        else if !modelValid then Invalid
        else if ActiveRouteBetween(old(routes), route.fromCityId, route.toCityId) then Refused(DuplicateRoute)
        else Created(FreshKey(old(routes)))
      ensures outcome.Created? ==>
        outcome.id !in old(routes) &&
        routes == old(routes)[outcome.id := route.(routeId := outcome.id, createdDate := now,
                                                    createdBy := Some(userName), isActive := true)]
      ensures !outcome.Created? ==> routes == old(routes)
      ensures ActiveRoutePairsDistinct(old(routes)) ==> ActiveRoutePairsDistinct(routes)
    {
      if route.fromCityId == route.toCityId {
        return Refused(SameCities);
      }
      if !modelValid {
        return Invalid;
      }
      if ActiveRouteBetween(routes, route.fromCityId, route.toCityId) {
        return Refused(DuplicateRoute);
      }
      var id := FreshKey(routes);
      routes := routes[id := route.(routeId := id, createdDate := now, createdBy := Some(userName), isActive := true)];
      outcome := Created(id);
    }

    /** EditRoute: refuses a route whose two ends are the same city, but does
        not look for another active route between the same cities. */
    method EditRoute(id: int, updated: Route, modelValid: bool) returns (outcome: Outcome)
      requires Valid()
      modifies this`routes
      ensures Valid()
      ensures outcome ==
        if id != updated.routeId then NotFound
        else if updated.fromCityId == updated.toCityId then Refused(SameCities)
        else if !modelValid then Invalid
        else if id !in old(routes) then NotFound
        else Done
      ensures outcome == Done ==> routes == old(routes)[id := EditedRoute(old(routes)[id], updated)]
      ensures outcome != Done ==> routes == old(routes)
    {
      if id != updated.routeId {
        return NotFound;
      }
      if updated.fromCityId == updated.toCityId {
        return Refused(SameCities);
      }
      if !modelValid {
        return Invalid;
      }
      if id !in routes {
        return NotFound;
      }
      routes := routes[id := EditedRoute(routes[id], updated)];
      outcome := Done;
    }

    /** DeleteRoute: a soft delete; a missing key changes nothing. */
    method DeleteRoute(id: int) returns (found: bool)
      requires Valid()
      modifies this`routes
      ensures Valid()
      ensures found == (id in old(routes))
      ensures routes == DeactivateRoute(old(routes), id)
    {
      found := id in routes;
      routes := DeactivateRoute(routes, id);
    }

    // -------------------------------------------------------------------------
    // Prices (AdminCabController)
    // -------------------------------------------------------------------------

    /** CreateCabPrice: refuses a cab, route and journey type that an active
        price already covers; otherwise adds the price, active and available. */
    method CreateCabPrice(price: CabRoutePrice, modelValid: bool, now: DateTime, userName: string) returns (outcome: Outcome)
      requires Valid()
      modifies this`prices
      ensures Valid()
      ensures outcome ==
        if !modelValid then Invalid
        else if ActivePriceFor(old(prices), price.cabId, price.routeId, price.journeyType) then Refused(DuplicatePrice)
        else Created(FreshKey(old(prices)))
      ensures outcome.Created? ==>
        outcome.id !in old(prices) &&
        prices == old(prices)[outcome.id := price.(cabRoutePriceId := outcome.id, createdDate := now,
                                                    createdBy := Some(userName), isActive := true, isAvailable := true)]
      ensures !outcome.Created? ==> prices == old(prices)
      ensures ActivePriceTriplesDistinct(old(prices)) ==> ActivePriceTriplesDistinct(prices)
    {
      if !modelValid {
        return Invalid;
      }
      if ActivePriceFor(prices, price.cabId, price.routeId, price.journeyType) {
        return Refused(DuplicatePrice);
      }
      var id := FreshKey(prices);
      prices := prices[id := price.(cabRoutePriceId := id, createdDate := now, createdBy := Some(userName),
                                    isActive := true, isAvailable := true)];
      outcome := Created(id);
    }

    /** EditCabPrice: copies the form onto the stored price, with no duplicate check. */
    method EditCabPrice(id: int, updated: CabRoutePrice, modelValid: bool) returns (outcome: Outcome)
      requires Valid()
      modifies this`prices
      ensures Valid()
      ensures outcome ==
        if id != updated.cabRoutePriceId then NotFound
        else if !modelValid then Invalid
        else if id !in old(prices) then NotFound
        else Done
      ensures outcome == Done ==> prices == old(prices)[id := EditedPrice(old(prices)[id], updated)]
      ensures outcome != Done ==> prices == old(prices)
    {
      if id != updated.cabRoutePriceId {
        return NotFound;
      }
      if !modelValid {
        return Invalid;
      }
      if id !in prices {
        return NotFound;
      }
      prices := prices[id := EditedPrice(prices[id], updated)];
      outcome := Done;
    }

    /** DeleteCabPrice: a soft delete; a missing key changes nothing. */
    method DeleteCabPrice(id: int) returns (found: bool)
      requires Valid()
      modifies this`prices
      ensures Valid()
      ensures found == (id in old(prices))
      ensures prices == DeactivatePrice(old(prices), id)
    {
      found := id in prices;
      prices := DeactivatePrice(prices, id);
    }

    /** ToggleAvailability: negates the price's availability. */
    method ToggleAvailability(id: int) returns (found: bool)
      requires Valid()
      modifies this`prices
      ensures Valid()
      ensures found == (id in old(prices))
      ensures prices == ToggleAvailable(old(prices), id)
    {
      found := id in prices;
      prices := ToggleAvailable(prices, id);
    }

    // -------------------------------------------------------------------------
    // Bookings (AdminCabController)
    // -------------------------------------------------------------------------

    /** UpdateCabStatus: brings the booking's cab in line with its new status. */
    method UpdateCabStatus(cabId: Option<int>, bookingStatus: CabBookingStatus, oldBookingStatus: CabBookingStatus)
      requires Valid()
      modifies this`cabs
      ensures Valid()
      ensures cabs == SyncedCabs(old(cabs), cabId, bookingStatus, oldBookingStatus)
    {
      if cabId.None? {
        return;
      }
      if cabId.value !in cabs {
        return;
      }
      var cab := cabs[cabId.value];
      match bookingStatus {
        case Cancelled | Completed =>
          if oldBookingStatus == Confirmed || oldBookingStatus == InProgress {
            cab := cab.(status := Available);
          }
        case Confirmed =>
          cab := cab.(status := Booked);
        case _ =>
      }
      CabStatusChangeKeepsValid(cabs, cabId.value, cab.status);
      cabs := cabs[cabId.value := cab];
    }

    /** UpdateBookingStatus: refuses an unknown booking and any step the
        transition table forbids, changing nothing; otherwise sets the status
        and the update stamp and synchronises the cab. */
    method UpdateBookingStatus(id: int, status: CabBookingStatus, now: DateTime, userName: string) returns (outcome: Outcome)
      requires Valid()
      modifies this`bookings, this`cabs
      ensures Valid()
      ensures outcome ==
        if id !in old(bookings) then NotFound
        else if !IsValidStatusTransition(old(bookings)[id].status, status) then Refused(InvalidTransition)
        else Done
      ensures outcome != Done ==> bookings == old(bookings) && cabs == old(cabs)
      ensures outcome == Done ==>
        bookings == old(bookings)[id := old(bookings)[id].(status := status, updatedDate := Some(now), updatedBy := Some(userName))] &&
        cabs == SyncedCabs(old(cabs), old(bookings)[id].cabId, status, old(bookings)[id].status)
      ensures StatusesAdvance(old(bookings), bookings) && TerminalsKept(old(bookings), bookings)
    {
      if id !in bookings {
        return NotFound;
      }
      var booking := bookings[id];
      if !IsValidStatusTransition(booking.status, status) {
        return Refused(InvalidTransition);
      }
      var oldStatus := booking.status;
      var updated := booking.(status := status, updatedDate := Some(now), updatedBy := Some(userName));
      BookingReplacedKeepsValid(bookings, id, updated);
      bookings := bookings[id := updated];
      UpdateCabStatus(booking.cabId, status, oldStatus);
      outcome := Done;
    }

    /** UpdatePaymentStatus: sets the payment status, stamps the payment date
        only when the payment is completed, and sets the update stamp. */
    method UpdatePaymentStatus(id: int, status: PaymentStatus, now: DateTime, userName: string) returns (outcome: Outcome)
      requires Valid()
      modifies this`bookings
      ensures Valid()
      ensures outcome == if id in old(bookings) then Done else NotFound
      ensures outcome == Done ==>
        bookings == old(bookings)[id := old(bookings)[id].(
          paymentStatus := status,
          paymentDate := if status == PaymentCompleted then Some(now) else old(bookings)[id].paymentDate,
          updatedDate := Some(now), updatedBy := Some(userName))]
      ensures outcome != Done ==> bookings == old(bookings)
      ensures StatusesAdvance(old(bookings), bookings) && TerminalsKept(old(bookings), bookings)
    {
      if id !in bookings {
        return NotFound;
      }
      var booking := bookings[id].(paymentStatus := status);
      if status == PaymentCompleted {
        booking := booking.(paymentDate := Some(now));
      }
      booking := booking.(updatedDate := Some(now), updatedBy := Some(userName));
      BookingReplacedKeepsValid(bookings, id, booking);
      bookings := bookings[id := booking];
      outcome := Done;
    }

    /** AssignDriver: records the driver's name and phone and the update stamp. */
    method AssignDriver(id: int, driverName: Option<string>, driverPhone: Option<string>, now: DateTime, userName: string)
      returns (outcome: Outcome)
      requires Valid()
      modifies this`bookings
      ensures Valid()
      ensures outcome == if id in old(bookings) then Done else NotFound
      ensures outcome == Done ==>
        bookings == old(bookings)[id := old(bookings)[id].(
          assignedDriverName := driverName, assignedDriverPhone := driverPhone,
          updatedDate := Some(now), updatedBy := Some(userName))]
      ensures outcome != Done ==> bookings == old(bookings)
      ensures StatusesAdvance(old(bookings), bookings) && TerminalsKept(old(bookings), bookings)
    {
      if id !in bookings {
        return NotFound;
      }
      var updated := bookings[id].(assignedDriverName := driverName, assignedDriverPhone := driverPhone,
                                   updatedDate := Some(now), updatedBy := Some(userName));
      BookingReplacedKeepsValid(bookings, id, updated);
      bookings := bookings[id := updated];
      outcome := Done;
    }

    /** The admin's CancelBooking: cancels the booking whatever its status,
        without consulting the transition table (a Completed booking becomes
        Cancelled too), and makes its cab Available whenever the cab exists. */
    method CancelBookingByAdmin(id: int, now: DateTime, userName: string) returns (outcome: Outcome)
      requires Valid()
      modifies this`bookings, this`cabs
      ensures Valid()
      ensures outcome == if id in old(bookings) then Done else NotFound
      ensures outcome == Done ==>
        bookings == old(bookings)[id := old(bookings)[id].(status := Cancelled, updatedDate := Some(now), updatedBy := Some(userName))] &&
        cabs == FreedCabs(old(cabs), old(bookings)[id].cabId)
      ensures outcome != Done ==> bookings == old(bookings) && cabs == old(cabs)
      ensures StatusesAdvance(old(bookings), bookings)
    {
      if id !in bookings {
        return NotFound;
      }
      var booking := bookings[id];
      var updated := booking.(status := Cancelled, updatedDate := Some(now), updatedBy := Some(userName));
      BookingReplacedKeepsValid(bookings, id, updated);
      bookings := bookings[id := updated];
      if booking.cabId.Some? && booking.cabId.value in cabs {
        CabStatusChangeKeepsValid(cabs, booking.cabId.value, Available);
        cabs := cabs[booking.cabId.value := cabs[booking.cabId.value].(status := Available)];
      }
      outcome := Done;
    }

    // -------------------------------------------------------------------------
    // Bookings (CabController)
    // -------------------------------------------------------------------------

    /** Book: looks the price up by key together with its cab, route and the
        route's cities (a price missing any of them is not found), refuses a
        cab that already has a live booking on the requested calendar day, and
        otherwise inserts exactly one new booking. It leaves the cab's own
        status untouched. */
    method Book(request: BookingRequest, modelValid: bool, now: DateTime, user: Option<User>, bookingNumber: string)
      returns (outcome: Outcome)
      requires Valid()
      modifies this`bookings
      ensures Valid()
      ensures outcome ==
        if request.cabRoutePriceId !in prices || !PriceJoins(cabs, routes, cities, prices[request.cabRoutePriceId]) then NotFound
        else if !modelValid then Invalid
        else if HasBookingOn(old(bookings), prices[request.cabRoutePriceId].cabId, request.travelDate.date) then Refused(AlreadyBooked)
        else Created(FreshKey(old(bookings)))
      ensures outcome.Created? ==>
        outcome.id !in old(bookings) &&
        bookings == old(bookings)[outcome.id := NewBooking(outcome.id, request, prices[request.cabRoutePriceId], now, user, bookingNumber)]
      ensures !outcome.Created? ==> bookings == old(bookings)
      ensures StatusesAdvance(old(bookings), bookings) && TerminalsKept(old(bookings), bookings)
    {
      if request.cabRoutePriceId !in prices || !PriceJoins(cabs, routes, cities, prices[request.cabRoutePriceId]) {
        return NotFound;
      }
      var price := prices[request.cabRoutePriceId];
      if !modelValid {
        return Invalid;
      }
      if HasBookingOn(bookings, price.cabId, request.travelDate.date) {
        return Refused(AlreadyBooked);
      }
      var id := FreshKey(bookings);
      var booking := NewBooking(id, request, price, now, user, bookingNumber);
      AddingBookingKeepsUnique(bookings, id, booking);
      bookings := bookings[id := booking];
      outcome := Created(id);
    }

    /** The customer's CancelBooking: forbidden unless the booking's account id
        equals the caller's (a visitor who is not signed in matches every guest
        booking, both ids being null); only Pending and Confirmed bookings are
        cancelled; a cancellation makes the cab Available whenever it exists. */
    method CancelBookingByCustomer(id: int, now: DateTime, user: Option<User>) returns (outcome: Outcome)
      requires Valid()
      modifies this`bookings, this`cabs
      ensures Valid()
      ensures outcome ==
        if id !in old(bookings) then NotFound
        else if old(bookings)[id].userId != UserIdOf(user) then Forbidden
        else if old(bookings)[id].status != Pending && old(bookings)[id].status != Confirmed then Refused(NotCancellable)
        else Done
      ensures outcome == Done ==>
        bookings == old(bookings)[id := old(bookings)[id].(status := Cancelled, updatedDate := Some(now), updatedBy := UserNameOf(user))] &&
        cabs == FreedCabs(old(cabs), old(bookings)[id].cabId)
      ensures outcome != Done ==> bookings == old(bookings) && cabs == old(cabs)
      ensures StatusesAdvance(old(bookings), bookings) && TerminalsKept(old(bookings), bookings)
    {
      if id !in bookings {
        return NotFound;
      }
      var booking := bookings[id];
      if booking.userId != UserIdOf(user) {
        return Forbidden;
      }
      if booking.status != Pending && booking.status != Confirmed {
        return Refused(NotCancellable);
      }
      var updated := booking.(status := Cancelled, updatedDate := Some(now), updatedBy := UserNameOf(user));
      BookingReplacedKeepsValid(bookings, id, updated);
      bookings := bookings[id := updated];
      if booking.cabId.Some? && booking.cabId.value in cabs {
        CabStatusChangeKeepsValid(cabs, booking.cabId.value, Available);
        cabs := cabs[booking.cabId.value := cabs[booking.cabId.value].(status := Available)];
      }
      outcome := Done;
    }
  }
}
