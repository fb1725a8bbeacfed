/** The enumerations of the fleet and booking records. Each C# enum becomes a
    datatype with one constructor per member, so a value outside the declared
    members cannot occur. */
module Enums {

  datatype JourneyType = OneWay | Outstation | Local | Transfer

  datatype CabType = Hatchback | Sedan | SUV | MUV | Luxury | TempoTraveller

  datatype CabStatus = Available | Booked | Maintenance | Unavailable

  datatype CabBookingStatus = Pending | Confirmed | InProgress | Completed | Cancelled

  datatype PaymentMethod = Cash | OnlinePayment | CreditCard | DebitCard | UPI

  /** The payment states. The C# members Pending, Completed and Cancelled share
      their names with booking states, so they are spelled with a `Payment` prefix here. */
  datatype PaymentStatus = PaymentPending | PaymentCompleted | PaymentFailed | PaymentRefunded | PaymentCancelled

  /** The integer value C# assigns to each booking status. */
  function Code(s: CabBookingStatus): (n: int)
    ensures 1 <= n <= 5
  {
    match s
    case Pending => 1
    case Confirmed => 2
    case InProgress => 3
    case Completed => 4
    case Cancelled => 5
  }

  /** Completed and Cancelled end a booking's lifecycle. */
  predicate IsTerminal(s: CabBookingStatus) {
    s == Completed || s == Cancelled
  }

  lemma CodeIsInjective(s: CabBookingStatus, t: CabBookingStatus)
    ensures Code(s) == Code(t) <==> s == t
  {
  }
}
