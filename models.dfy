/**
 * The persistent entities of the booking backend (the Mongoose schemas of
 * `backend/models/`) and the collections that hold them.
 *
 * Money is an integer number of paise (hundredths of a rupee) and every
 * instant is an integer number of milliseconds, so that the two-decimal
 * rounding of the pricing engine is exact.
 */
module Models {
  import opened Wrappers

  /** A flight document: catalog fields plus its live pricing state. */
  datatype Flight = Flight(
    flightId: string,
    airline: string,
    departureCity: string,
    arrivalCity: string,
    departureTime: string,  // "HH:MM", 24-hour clock
    arrivalTime: string,    // "HH:MM", 24-hour clock
    basePrice: int,
    currentPrice: int,
    lastPriceUpdate: int)

  /** The schema's bounds: both prices are at least 0. */
  predicate ValidFlight(f: Flight) {
    f.basePrice >= 0 && f.currentPrice >= 0
  }

  /** One recorded booking attempt by a user on a flight. */
  datatype Attempt = Attempt(
    userId: string,
    flightId: string,
    priceAtAttempt: int,
    attemptTime: int)

  /** One passenger of a booking; the age is optional. */
  datatype Passenger = Passenger(name: string, age: Option<int>)

  /** A booking document, one per leg of a purchase. */
  datatype BookingRecord = BookingRecord(
    userId: string,
    passengerName: string,
    passengerDetails: seq<Passenger>,
    flightId: string,
    airline: string,
    route: string,
    pricePaid: int,
    passengerCount: int,
    basePricePerPassenger: int,
    isReturn: bool,
    bookingTime: int,
    pnr: string)

  /** The schema's bounds on a booking: prices at least 0, 1 to 9 passengers. */
  predicate ValidBooking(b: BookingRecord) {
    b.pricePaid >= 0 && 1 <= b.passengerCount <= 9 && b.basePricePerPassenger >= 0
  }

  /** True when some booking of `bookings` already carries `pnr` (the unique index on `pnr`). */
  predicate PnrTaken(bookings: seq<BookingRecord>, pnr: string) {
    exists k | 0 <= k < |bookings| :: bookings[k].pnr == pnr
  }

  /**
   * Would `Booking.create` accept `b` next to `bookings`? The `pnr` index is
   * unique, the numeric fields keep their bounds, and a required field (the
   * user, the lead passenger name, every listed passenger's name, the flight
   * id, the airline, the route, the code) may not be empty.
   */
  predicate Storable(bookings: seq<BookingRecord>, b: BookingRecord) {
    !PnrTaken(bookings, b.pnr) && ValidBooking(b)
    && b.userId != "" && b.passengerName != "" && b.flightId != "" && b.airline != ""
    && b.route != "" && b.pnr != ""
    && forall k | 0 <= k < |b.passengerDetails| :: b.passengerDetails[k].name != ""
  }

  /** The `flights` collection, keyed by the business identifier `flight_id`. */
  class FlightStore {
    var flights: map<string, Flight>

    /** Every flight is filed under its own identifier and respects the schema. */
    ghost predicate Valid()
      reads this
    {
      forall id | id in flights :: flights[id].flightId == id && ValidFlight(flights[id])
    }

    constructor (initial: map<string, Flight>)
      ensures flights == initial
    {
      flights := initial;
    }
  }

  /** The `bookingattempts` collection, in insertion order. */
  class AttemptLog {
    var attempts: seq<Attempt>

    constructor (initial: seq<Attempt>)
      ensures attempts == initial
    {
      attempts := initial;
    }
  }

  /** The `bookings` collection, in insertion order. */
  class BookingStore {
    var bookings: seq<BookingRecord>

    constructor (initial: seq<BookingRecord>)
      ensures bookings == initial
    {
      bookings := initial;
    }

    /** `Booking.create`: store `b`, or throw when the schema or the unique index refuses it. */
    method Create(b: BookingRecord) returns (ok: bool)
      modifies this
      ensures ok <==> Storable(old(bookings), b)
      ensures bookings == if ok then old(bookings) + [b] else old(bookings)
    {
      ok := Storable(bookings, b);
      if ok {
        bookings := bookings + [b];
      }
    }
  }
}
