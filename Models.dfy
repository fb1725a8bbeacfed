/** The records of the cab tables, with the fields of the C# model classes, and the two
    forms the customer fills in. Amounts of money, distances and durations
    (C# `decimal`) are integers in the smallest unit; C# `string?` fields are
    `Option<string>`; a `TimeSpan` is a number of ticks. */
module Models {
  import opened Common
  import opened Enums

  datatype Cab = Cab(
    cabId: int,
    name: string,
    cabType: CabType,
    model: string,
    registrationNumber: string,
    year: int,
    hasAC: bool,
    seatingCapacity: int,
    basePricePerKM: int,
    features: Option<string>,
    imageUrl: Option<string>,
    status: CabStatus,
    driverId: Option<string>,
    driverName: Option<string>,
    driverPhone: Option<string>,
    createdBy: Option<string>,
    createdDate: DateTime,
    isActive: bool)

  datatype City = City(
    cityId: int,
    name: string,
    state: string,
    country: string,
    description: Option<string>,
    imageUrl: Option<string>,
    popularPlaces: Option<string>,
    isPopular: bool,
    createdBy: Option<string>,
    createdDate: DateTime,
    isActive: bool)

  /** A directed city pair. */
  datatype Route = Route(
    routeId: int,
    fromCityId: int,
    toCityId: int,
    distance: int,
    estimatedTime: int,
    routeDescription: Option<string>,
    popularStops: Option<string>,
    isActive: bool,
    createdBy: Option<string>,
    createdDate: DateTime)

  /** The price of one cab on one route for one journey type. */
  datatype CabRoutePrice = CabRoutePrice(
    cabRoutePriceId: int,
    cabId: int,
    routeId: int,
    journeyType: JourneyType,
    price: int,
    includedServices: Option<string>,
    excludedServices: Option<string>,
    extraCharges: Option<string>,
    notes: Option<string>,
    termsAndConditions: Option<string>,
    isAvailable: bool,
    createdBy: Option<string>,
    createdDate: DateTime,
    isActive: bool)

  datatype CabBooking = CabBooking(
    cabBookingId: int,
    bookingNumber: string,
    userId: Option<string>,
    guestName: Option<string>,
    guestEmail: Option<string>,
    guestPhone: Option<string>,
    cabRoutePriceId: int,
    travelDate: DateTime,
    pickupTime: int,
    pickupLocation: string,
    dropoffLocation: string,
    numberOfPassengers: int,
    additionalNotes: Option<string>,
    basePrice: int,
    extraCharges: int,
    discount: int,
    totalPrice: int,
    status: CabBookingStatus,
    paymentMethod: PaymentMethod,
    paymentStatus: PaymentStatus,
    paymentTransactionId: Option<string>,
    paymentDate: Option<DateTime>,
    assignedDriverId: Option<string>,
    assignedDriverName: Option<string>,
    assignedDriverPhone: Option<string>,
    vehicleNumber: Option<string>,
    createdBy: Option<string>,
    createdDate: DateTime,
    updatedDate: Option<DateTime>,
    updatedBy: Option<string>,
    isActive: bool,
    cabId: Option<int>)

  /** Whether a price's cab, route and the route's two cities are all present:
      what an `Include` of a required reference (an inner join) needs before
      the price takes part in a query's answer. */
  predicate PriceJoins(cabs: map<int, Cab>, routes: map<int, Route>, cities: map<int, City>, p: CabRoutePrice) {
    && p.cabId in cabs
    && p.routeId in routes
    && routes[p.routeId].fromCityId in cities
    && routes[p.routeId].toCityId in cities
  }

  /** A signed-in account: its id and its user name. */
  datatype User = User(id: string, userName: string)

  /** The booking form (CabBookingViewModel). */
  datatype BookingRequest = BookingRequest(
    cabRoutePriceId: int,
    travelDate: DateTime,
    pickupTime: int,
    pickupLocation: string,
    dropoffLocation: string,
    numberOfPassengers: int,
    additionalNotes: Option<string>,
    guestName: Option<string>,
    guestEmail: Option<string>,
    guestPhone: Option<string>,
    paymentMethod: PaymentMethod)

  /** The search form (CabSearchViewModel). */
  datatype SearchRequest = SearchRequest(
    fromCity: string,
    toCity: string,
    travelDate: DateTime,
    journeyType: JourneyType)

  /** The id of the signed-in account, or null for a visitor (`user?.Id`). */
  function UserIdOf(user: Option<User>): Option<string> {
    if user.Some? then Some(user.value.id) else None
  }

  /** The user name of the signed-in account, or null (`user?.UserName`). */
  function UserNameOf(user: Option<User>): Option<string> {
    if user.Some? then Some(user.value.userName) else None
  }
}
