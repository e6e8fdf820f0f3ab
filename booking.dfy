/**
 * The booking orchestrator: `createBooking` and `generatePNR` of
 * `backend/controllers/bookingController.js`.
 *
 * A purchase clamps the passenger count, resolves the outbound flight, the
 * optional return flight and the user (404 when any is missing), records one
 * attempt and evaluates dynamic pricing per leg (falling back to the price
 * read beforehand when pricing fails), totals the price, rejects a short
 * wallet (400) or debits it once, and then creates one booking per leg with
 * reservation codes that share a stem and end in `O` and `R`.
 *
 * `Purchase` specifies the whole request as a transition of the four
 * collections; `CreateBooking` performs it step by step on the stores.
 */
module Booking {
  import opened Wrappers
  import opened Models
  import opened Pricing
  import opened Wallet

  /** The characters of a generated reservation code. */
  const PnrAlphabet: string := "ABCDEFGHIJKLMNOPQRSTUVWXYZ0123456789"
  /** The length of a generated reservation code. */
  const PnrLength: nat := 6

  /**
   * The body of a booking request. Absent or falsy fields are the empty
   * string or the empty list; `passengerCount` is `parseInt` of the sent
   * value, with `None` for NaN.
   */
  datatype BookingRequest = BookingRequest(
    flightId: string,
    passengerName: string,
    passengerCount: Option<int>,
    customPnr: string,
    passengerDetails: seq<Passenger>,
    returnFlightId: string)

  /**
   * What the request cannot see but depends on: the clock, the six draws of
   * `Math.random` behind a generated code (each `floor(random * 36)`), whether
   * pricing fails for a leg, and whether each ticket document was produced.
   */
  datatype Environment = Environment(
    now: int,
    pnrDraws: seq<int>,
    outboundPricingFails: bool,
    returnPricingFails: bool,
    outboundTicketOk: bool,
    returnTicketOk: bool)

  predicate ValidDraws(draws: seq<int>) {
    |draws| == PnrLength && forall k | 0 <= k < |draws| :: 0 <= draws[k] < |PnrAlphabet|
  }

  /** One leg of the response; `ticketAvailable` stands for a non-null `downloadUrl`. */
  datatype LegSummary = LegSummary(booking: BookingRecord, ticketAvailable: bool)

  datatype Response =
    | NotFound(message: string)                          // 404
    | InsufficientFunds(required: int, available: int)   // 400, nothing charged
    | CreationFailed                                     // 400 from the catch around the whole handler
    | Created(outbound: LegSummary, returnLeg: Option<LegSummary>, totalPrice: int, remainingBalance: int)  // 201

  /** The four collections the orchestrator touches, as one value. */
  datatype Db = Db(
    flights: map<string, Flight>,
    attempts: seq<Attempt>,
    accounts: seq<Account>,
    bookings: seq<BookingRecord>)

  predicate ValidFlights(flights: map<string, Flight>) {
    forall id | id in flights :: flights[id].flightId == id && ValidFlight(flights[id])
  }

  predicate ValidDb(db: Db) {
    ValidFlights(db.flights) && UniqueIds(db.accounts)
  }

  function DbOf(flights: FlightStore, log: AttemptLog, users: UserStore, bookings: BookingStore): Db
    reads flights, log, users, bookings
  {
    Db(flights.flights, log.attempts, users.accounts, bookings.bookings)
  }

  // ---------------------------------------------------------------------------
  // Pure pieces of the handler
  // ---------------------------------------------------------------------------

  function Min(a: int, b: int): int { if a <= b then a else b }
  function Max(a: int, b: int): int { if a >= b then a else b }

  /** `Math.min(9, Math.max(1, parseInt(passengerCount) || 1))`. */
  function ClampPassengers(parsed: Option<int>): (n: int)
    ensures 1 <= n <= 9
    ensures parsed.Some? && 1 <= parsed.value <= 9 ==> n == parsed.value
    ensures parsed.None? || parsed.value <= 1 ==> n == 1
    ensures parsed.Some? && parsed.value >= 9 ==> n == 9
  {
    var count := if parsed.None? || parsed.value == 0 then 1 else parsed.value;
    Min(9, Max(1, count))
  }

  /** The code that `generatePNR` builds from its six draws. */
  function PnrFrom(draws: seq<int>): (pnr: string)
    requires ValidDraws(draws)
    ensures |pnr| == PnrLength
  {
    seq(PnrLength, k requires 0 <= k < PnrLength => PnrAlphabet[draws[k]])
  }

  /** A character of `[A-Z0-9]`. */
  predicate IsPnrChar(c: char) {
    'A' <= c <= 'Z' || '0' <= c <= '9'
  }

  /** A generated code is six characters of `[A-Z0-9]`. */
  lemma PnrFromShape(draws: seq<int>)
    requires ValidDraws(draws)
    ensures |PnrFrom(draws)| == PnrLength
    ensures forall k | 0 <= k < PnrLength :: IsPnrChar(PnrFrom(draws)[k])
  {
    forall i | 0 <= i < |PnrAlphabet| ensures IsPnrChar(PnrAlphabet[i]) {
      if i < 26 {
        assert PnrAlphabet[i] == ('A' as int + i) as char;
      } else {
        assert PnrAlphabet[i] == ('0' as int + i - 26) as char;
      }
    }
  }

  /** `generatePNR`: six characters of `[A-Z0-9]`, one per random draw. */
  method GeneratePnr(draws: seq<int>) returns (pnr: string)
    requires ValidDraws(draws)
    ensures |pnr| == PnrLength
    ensures forall k | 0 <= k < PnrLength :: pnr[k] == PnrAlphabet[draws[k]] && pnr[k] in PnrAlphabet
  {
    pnr := "";
    for i := 0 to PnrLength
      invariant |pnr| == i
      invariant forall k | 0 <= k < i :: pnr[k] == PnrAlphabet[draws[k]]
    {
      pnr := pnr + [PnrAlphabet[draws[i]]];
    }
  }

  /** The stem shared by both legs' codes: the custom code if one was sent, else a generated one. */
  function Stem(req: BookingRequest, env: Environment): string
    requires ValidDraws(env.pnrDraws)
  {
    if req.customPnr != "" then req.customPnr else PnrFrom(env.pnrDraws)
  }

  /** The display route of a leg, `departure-arrival`. */
  function Route(from: string, to: string): string {
    from + "-" + to
  }

  /** The name of the `i`-th generated passenger: ` #i+1` is appended when there are several. */
  function GeneratedName(baseName: string, passCount: int, i: nat): string
    requires i < 9
  {
    baseName + (if passCount > 1 then " #" + [(('1' as int) + i) as char] else "")
  }

  /**
   * The passenger list: the sent details cut to `passCount` (never padded),
   * or `passCount` generated passengers when no details were sent.
   */
  function PassengerList(details: seq<Passenger>, passengerName: string, userName: string, passCount: int)
    : (r: seq<Passenger>)
    requires 1 <= passCount <= 9
    ensures |details| > 0 ==> r == details[..Min(passCount, |details|)]
    ensures |details| == 0 ==> |r| == passCount
  {
    if |details| > 0 then details[..Min(passCount, |details|)]
    else
      var baseName := if passengerName != "" then passengerName else userName;
      seq(passCount, i requires 0 <= i < passCount => Passenger(GeneratedName(baseName, passCount, i), None))
  }

  /**
   * With no details sent, the generated passengers carry no age and are named
   * after the passenger name given (else the user's name); a lone passenger
   * gets that name as is, several get it numbered ` #1`, ` #2`, ... so that
   * no two share a name.
   */
  lemma GeneratedPassengers(passengerName: string, userName: string, passCount: int)
    requires 1 <= passCount <= 9
    ensures var r := PassengerList([], passengerName, userName, passCount);
      var base := if passengerName != "" then passengerName else userName;
      (forall i | 0 <= i < |r| :: r[i].age.None? && |r[i].name| >= |base| && r[i].name[..|base|] == base)
      && (passCount == 1 ==> r[0].name == base)
      && (passCount > 1 ==> r[0].name == base + " #1"
                            && forall i, j | 0 <= i < j < |r| :: r[i].name != r[j].name)
  {
    var r := PassengerList([], passengerName, userName, passCount);
    var base := if passengerName != "" then passengerName else userName;
    forall i | 0 <= i < |r|
      ensures r[i] == Passenger(GeneratedName(base, passCount, i), None)
      ensures |r[i].name| >= |base| && r[i].name[..|base|] == base
    {
      assert r == seq(passCount, k requires 0 <= k < passCount => Passenger(GeneratedName(base, passCount, k), None));
      assert r[i].name == GeneratedName(base, passCount, i);
    }
    if passCount > 1 {
      forall i, j | 0 <= i < j < |r|
        ensures r[i].name != r[j].name
      {
        assert r[i].name[|base| + 2] == (('1' as int) + i) as char;
        assert r[j].name[|base| + 2] == (('1' as int) + j) as char;
      }
    }
  }

  /** The flight price after one leg's pricing step, with the fallback when pricing fails. */
  function PriceLeg(flights: map<string, Flight>, attempts: seq<Attempt>, userId: string, flightId: string,
                    now: int, fails: bool, fallback: int): (r: (map<string, Flight>, int))
    requires ValidFlights(flights) && flightId in flights
    ensures ValidFlights(r.0) && r.0.Keys == flights.Keys
    ensures forall id | id in flights && id != flightId :: r.0[id] == flights[id]
    ensures r.0[flightId].basePrice == flights[flightId].basePrice
    ensures fails ==> r == (flights, fallback)
    ensures !fails ==> r.1 == r.0[flightId].currentPrice
    ensures !fails ==>
      r.0 == flights[flightId := Evaluate(flights[flightId], RecentCount(attempts, userId, flightId, now), now)]
    ensures var f := flights[flightId];
      r.0[flightId].currentPrice in {f.currentPrice, f.basePrice, Raised(f.basePrice)}
  {
    if fails then (flights, fallback)
    else
      var f := Evaluate(flights[flightId], RecentCount(attempts, userId, flightId, now), now);
      (flights[flightId := f], f.currentPrice)
  }

  /** Everything the handler knows once both legs are priced. */
  datatype Quote = Quote(
    db: Db,                     // after the attempts and the pricing writes
    userIndex: nat,
    user: Account,              // as read before pricing
    passCount: int,
    outbound: Flight,           // as read before pricing
    returnLeg: Option<Flight>,  // as read before pricing
    outboundPrice: int,
    returnPrice: int)
  {
    function TotalPrice(): (total: int)
      ensures outboundPrice >= 0 && returnPrice >= 0 && passCount >= 0 ==> total >= 0
    {
      (outboundPrice + returnPrice) * passCount
    }
  }

  predicate ValidQuote(q: Quote) {
    ValidDb(q.db) && q.userIndex < |q.db.accounts| && q.db.accounts[q.userIndex] == q.user
    && 1 <= q.passCount <= 9 && q.outboundPrice >= 0 && q.returnPrice >= 0
    && (q.returnLeg.None? ==> q.returnPrice == 0)
  }

  /**
   * Steps 1 to 3 of the handler: clamp, look up, record attempts and price
   * each leg. Fails with the 404 message when a flight or the user is missing.
   */
  function Prepare(db: Db, req: BookingRequest, userId: string, env: Environment): (r: Result<Quote, string>)
    requires ValidDb(db)
    ensures r.Success? ==> ValidQuote(r.value)
    ensures r.Success? <==>
      req.flightId in db.flights && (req.returnFlightId != "" ==> req.returnFlightId in db.flights)
      && IdUsed(db.accounts, userId)
    ensures r.Success? ==>
      var q := r.value;
      req.flightId in db.flights && (req.returnFlightId != "" ==> req.returnFlightId in db.flights)
      && q.userIndex == FindById(db.accounts, userId).value && SameId(q.user.id, userId)
      && q.db.accounts == db.accounts && q.db.bookings == db.bookings
      && q.passCount == ClampPassengers(req.passengerCount)
      && q.outbound == db.flights[req.flightId]
      && q.returnLeg == (if req.returnFlightId == "" then None else Some(db.flights[req.returnFlightId]))
      && q.db.attempts == db.attempts + [Attempt(userId, req.flightId, db.flights[req.flightId].currentPrice, env.now)]
           + (if req.returnFlightId == "" then []
              else [Attempt(userId, req.returnFlightId, db.flights[req.returnFlightId].currentPrice, env.now)])
    ensures r.Success? ==>
      var q := r.value;
      (env.outboundPricingFails ==> q.outboundPrice == q.outbound.currentPrice)
      && q.outboundPrice in {q.outbound.currentPrice, q.outbound.basePrice, Raised(q.outbound.basePrice)}
      && (q.returnLeg.None? ==> q.returnPrice == 0)
      && (q.returnLeg.Some? ==>
            var f := q.returnLeg.value;
            (env.returnPricingFails ==> q.returnPrice == f.currentPrice)
            && q.returnPrice in {f.currentPrice, f.basePrice, Raised(f.basePrice)})
  {
    var passCount := ClampPassengers(req.passengerCount);
    if req.flightId !in db.flights then Failure("Flight not found")
    else if req.returnFlightId != "" && req.returnFlightId !in db.flights then Failure("Return flight not found")
    else if FindById(db.accounts, userId).None? then Failure("User not found")
    else
      var u := FindById(db.accounts, userId).value;
      var flight := db.flights[req.flightId];
      var attempts1 := db.attempts + [Attempt(userId, req.flightId, flight.currentPrice, env.now)];
      var (flights1, outboundPrice) :=
        PriceLeg(db.flights, attempts1, userId, req.flightId, env.now, env.outboundPricingFails, flight.currentPrice);
      if req.returnFlightId == "" then
        Success(Quote(db.(flights := flights1, attempts := attempts1), u, db.accounts[u], passCount,
                      flight, None, outboundPrice, 0))
      else
        var returnFlight := db.flights[req.returnFlightId];
        var attempts2 := attempts1 + [Attempt(userId, req.returnFlightId, returnFlight.currentPrice, env.now)];
        var (flights2, returnPrice) :=
          PriceLeg(flights1, attempts2, userId, req.returnFlightId, env.now, env.returnPricingFails, returnFlight.currentPrice);
        Success(Quote(db.(flights := flights2, attempts := attempts2), u, db.accounts[u], passCount,
                      flight, Some(returnFlight), outboundPrice, returnPrice))
  }

  /**
   * The booking record of one leg: the user's id, the lead passenger's name
   * (or the user's), the passenger list, the leg's flight and airline, the
   * route (stored reversed for the return leg), the price for all passengers,
   * and the shared code stem with `O` or `R` appended.
   */
  function LegRecord(user: Account, req: BookingRequest, env: Environment, passCount: int,
                     flightId: string, f: Flight, price: int, isReturn: bool): BookingRecord
    requires 1 <= passCount <= 9 && ValidDraws(env.pnrDraws)
  {
    var passengers := PassengerList(req.passengerDetails, req.passengerName, user.name, passCount);
    BookingRecord(
      user.id,
      if |passengers| > 0 && passengers[0].name != "" then passengers[0].name else user.name,
      passengers, flightId, f.airline,
      if isReturn then Route(f.arrivalCity, f.departureCity) else Route(f.departureCity, f.arrivalCity),
      price * passCount, passCount, price,
      isReturn, env.now, Stem(req, env) + (if isReturn then "R" else "O"))
  }

  /** The outbound booking record of a priced request. */
  function OutboundRecord(q: Quote, req: BookingRequest, env: Environment): BookingRecord
    requires ValidQuote(q) && ValidDraws(env.pnrDraws)
  {
    LegRecord(q.user, req, env, q.passCount, req.flightId, q.outbound, q.outboundPrice, false)
  }

  /** The return booking record of a priced round-trip request. */
  function ReturnRecord(q: Quote, req: BookingRequest, env: Environment): BookingRecord
    requires ValidQuote(q) && ValidDraws(env.pnrDraws) && q.returnLeg.Some?
  {
    LegRecord(q.user, req, env, q.passCount, req.returnFlightId, q.returnLeg.value, q.returnPrice, true)
  }

  /** The collections after the single debit of a quote's total. */
  function Charged(q: Quote): (db: Db)
    requires ValidQuote(q)
    ensures ValidDb(db)
  {
    q.db.(accounts := q.db.accounts[q.userIndex := q.user.(walletBalance := q.user.walletBalance - q.TotalPrice())])
  }

  /**
   * Steps 4 to 6 as the handler writes them: check the funds read before
   * pricing, save the debited balance, then create the outbound booking and
   * the return booking; a refused creation ends in the 400 of the catch with
   * the debit (and any booking already created) left in place.
   */
  function Settle(q: Quote, req: BookingRequest, env: Environment): (r: (Db, Response))
    requires ValidQuote(q) && ValidDraws(env.pnrDraws)
    ensures ValidDb(r.0)
  {
    var total := q.TotalPrice();
    if q.user.walletBalance < total then (q.db, InsufficientFunds(total, q.user.walletBalance))
    else
      var db1 := Charged(q);
      var ob := OutboundRecord(q, req, env);
      if !Storable(db1.bookings, ob) then (db1, CreationFailed)
      else
        var db2 := db1.(bookings := db1.bookings + [ob]);
        if q.returnLeg.None? then
          (db2, Created(LegSummary(ob, env.outboundTicketOk), None, total, q.user.walletBalance - total))
        else
          var rb := ReturnRecord(q, req, env);
          if !Storable(db2.bookings, rb) then (db2, CreationFailed)
          else (db2.(bookings := db1.bookings + [ob, rb]),
                Created(LegSummary(ob, env.outboundTicketOk), Some(LegSummary(rb, env.returnTicketOk)),
                        total, q.user.walletBalance - total))
  }

  /**
   * The outcomes of the settlement as written: a short wallet changes
   * nothing; otherwise the debit is saved and stays, whether both bookings
   * are created or the first refused creation ends the request.
   */
  lemma SettleSpec(q: Quote, req: BookingRequest, env: Environment)
    requires ValidQuote(q) && ValidDraws(env.pnrDraws)
    ensures Settle(q, req, env).0.flights == q.db.flights && Settle(q, req, env).0.attempts == q.db.attempts
    ensures Settle(q, req, env).1.InsufficientFunds? <==> q.user.walletBalance < q.TotalPrice()
    ensures Settle(q, req, env).1.InsufficientFunds? ==>
      Settle(q, req, env).0 == q.db && Settle(q, req, env).1 == InsufficientFunds(q.TotalPrice(), q.user.walletBalance)
    ensures !Settle(q, req, env).1.InsufficientFunds? ==> Settle(q, req, env).0.accounts == Charged(q).accounts && (Settle(q, req, env).1.Created? || Settle(q, req, env).1.CreationFailed?)
    ensures Settle(q, req, env).1.Created? ==>
      var ob := OutboundRecord(q, req, env);
      if q.returnLeg.None? then
        Settle(q, req, env).0.bookings == q.db.bookings + [ob]
        && Settle(q, req, env).1 == Created(LegSummary(ob, env.outboundTicketOk), None, q.TotalPrice(), q.user.walletBalance - q.TotalPrice())
      else
        var rb := ReturnRecord(q, req, env);
        Settle(q, req, env).0.bookings == q.db.bookings + [ob, rb]
        && Settle(q, req, env).1 == Created(LegSummary(ob, env.outboundTicketOk), Some(LegSummary(rb, env.returnTicketOk)),
                          q.TotalPrice(), q.user.walletBalance - q.TotalPrice())
    ensures Settle(q, req, env).1.CreationFailed? ==>
      var ob := OutboundRecord(q, req, env);
      (!Storable(q.db.bookings, ob) && Settle(q, req, env).0.bookings == q.db.bookings)
      || (q.returnLeg.Some? && Storable(q.db.bookings, ob) && !Storable(q.db.bookings + [ob], ReturnRecord(q, req, env))
          && Settle(q, req, env).0.bookings == q.db.bookings + [ob])
  {
  }

  /** `createBooking` as written, as a transition of the collections. */
  function Purchase(db: Db, req: BookingRequest, userId: string, env: Environment): (r: (Db, Response))
    requires ValidDb(db) && ValidDraws(env.pnrDraws)
    ensures ValidDb(r.0)
  {
    match Prepare(db, req, userId, env)
    case Failure(message) => (db, NotFound(message))
    case Success(q) => Settle(q, req, env)
  }

  // ---------------------------------------------------------------------------
  // The handler over the stores
  // ---------------------------------------------------------------------------

  /** One leg's attempt and pricing step: record the attempt at `readPrice`, then price or fall back. */
  method PriceLegStep(flights: FlightStore, log: AttemptLog, userId: string, flightId: string,
                      readPrice: int, now: int, fails: bool)
    returns (price: int)
    requires flights.Valid() && flightId in flights.flights
    modifies flights, log
    ensures flights.Valid()
    ensures log.attempts == old(log.attempts) + [Attempt(userId, flightId, readPrice, now)]
    ensures (flights.flights, price) == PriceLeg(old(flights.flights), log.attempts, userId, flightId, now, fails, readPrice)
  {
    var _ := RecordBookingAttempt(log, userId, flightId, readPrice, now);
    price := readPrice;
    if !fails {
      var priced := ApplyDynamicPricing(flights, log, userId, flightId, now);
      price := priced.value.currentPrice;
    }
  }

  /**
   * The two booking records of a priced request, built as the handler builds
   * them: the code stem (custom or generated), the passenger list, the lead
   * name, and one record per leg.
   */
  method BuildLegs(ghost q: Quote, req: BookingRequest, env: Environment, user: Account, passCount: int,
                   flight: Flight, returnFlight: Option<Flight>, outboundPrice: int, returnPrice: int)
    returns (outboundBooking: BookingRecord, returnBooking: Option<BookingRecord>)
    requires ValidDraws(env.pnrDraws) && ValidQuote(q)
    requires q.user == user && q.passCount == passCount && q.outbound == flight && q.returnLeg == returnFlight
    requires q.outboundPrice == outboundPrice && q.returnPrice == returnPrice
    ensures outboundBooking == OutboundRecord(q, req, env)
    ensures returnBooking.Some? <==> returnFlight.Some?
    ensures returnBooking.Some? ==> returnBooking.value == ReturnRecord(q, req, env)
  {
    var basePnr := req.customPnr;
    if basePnr == "" {
      basePnr := GeneratePnr(env.pnrDraws);
      assert basePnr == PnrFrom(env.pnrDraws);
    }
    var passengers := PassengerList(req.passengerDetails, req.passengerName, user.name, passCount);
    var leadName := if |passengers| > 0 && passengers[0].name != "" then passengers[0].name else user.name;
    outboundBooking := BookingRecord(
      user.id, leadName, passengers, req.flightId, flight.airline,
      Route(flight.departureCity, flight.arrivalCity),
      outboundPrice * passCount, passCount, outboundPrice, false, env.now, basePnr + "O");
    returnBooking := None;
    if returnFlight.Some? {
      var rf := returnFlight.value;
      returnBooking := Some(BookingRecord(
        user.id, leadName, passengers, req.returnFlightId, rf.airline,
        Route(rf.arrivalCity, rf.departureCity),
        returnPrice * passCount, passCount, returnPrice, true, env.now, basePnr + "R"));
    }
  }

  /**
   * The two creations of the handler as written, on a booking list: the
   * outbound record, then the return record if any; the first refusal stops
   * the sequence and keeps what was already created.
   */
  function Creation(bookings: seq<BookingRecord>, ob: BookingRecord, rb: Option<BookingRecord>)
    : (r: (seq<BookingRecord>, bool))
    ensures r.1 ==> r.0 == bookings + [ob] + (if rb.Some? then [rb.value] else [])
    ensures !r.1 ==> r.0 == bookings || r.0 == bookings + [ob]
  {
    if !Storable(bookings, ob) then (bookings, false)
    else if rb.None? then (bookings + [ob], true)
    else if !Storable(bookings + [ob], rb.value) then (bookings + [ob], false)
    else (bookings + [ob, rb.value], true)
  }

  /** The creations on the booking store, one `Booking.create` after the other. */
  method CreateAsWritten(bookings: BookingStore, ob: BookingRecord, rb: Option<BookingRecord>) returns (ok: bool)
    modifies bookings
    ensures (bookings.bookings, ok) == Creation(old(bookings.bookings), ob, rb)
  {
    ok := bookings.Create(ob);
    if ok && rb.Some? {
      ok := bookings.Create(rb.value);
    }
  }

  /** With the funds there, the settlement is the debit followed by `Creation`. */
  lemma SettleByCreation(q: Quote, req: BookingRequest, env: Environment)
    requires ValidQuote(q) && ValidDraws(env.pnrDraws) && q.TotalPrice() <= q.user.walletBalance
    ensures var ob := OutboundRecord(q, req, env);
      var rb := if q.returnLeg.Some? then Some(ReturnRecord(q, req, env)) else None;
      var c := Creation(Charged(q).bookings, ob, rb);
      Settle(q, req, env)
        == (Charged(q).(bookings := c.0),
            if !c.1 then CreationFailed
            else Created(LegSummary(ob, env.outboundTicketOk),
                         if rb.Some? then Some(LegSummary(rb.value, env.returnTicketOk)) else None,
                         q.TotalPrice(), q.user.walletBalance - q.TotalPrice()))
  {
  }

  /**
   * The settlement of a priced request on the user and booking stores: the
   * funds check, the saved debit and the two creations.
   */
  method SettleStep(users: UserStore, bookings: BookingStore, ghost q: Quote, req: BookingRequest, env: Environment,
                    u: nat, user: Account, passCount: int, flight: Flight, returnFlight: Option<Flight>,
                    outboundPrice: int, returnPrice: int)
    returns (resp: Response)
    requires ValidDraws(env.pnrDraws)
    requires q == Quote(q.db.(accounts := users.accounts, bookings := bookings.bookings), u, user, passCount,
                        flight, returnFlight, outboundPrice, returnPrice)
    requires ValidQuote(q)
    modifies users, bookings
    ensures (q.db.(accounts := users.accounts, bookings := bookings.bookings), resp) == Settle(q, req, env)
  {
    var totalPrice := (outboundPrice + returnPrice) * passCount;
    assert totalPrice == q.TotalPrice();
    if user.walletBalance < totalPrice {
      return InsufficientFunds(totalPrice, user.walletBalance);
    }

    // the single debit, saved on the user document
    var charged := user.(walletBalance := user.walletBalance - totalPrice);
    users.accounts := users.accounts[u := charged];
    assert users.accounts == Charged(q).accounts;

    var outboundBooking, returnBooking := BuildLegs(q, req, env, user, passCount, flight, returnFlight,
                                                    outboundPrice, returnPrice);
    SettleByCreation(q, req, env);
    var created := CreateAsWritten(bookings, outboundBooking, returnBooking);
    if !created {
      return CreationFailed;
    }
    var returnSummary: Option<LegSummary> := None;
    if returnBooking.Some? {
      returnSummary := Some(LegSummary(returnBooking.value, env.returnTicketOk));
    }
    resp := Created(LegSummary(outboundBooking, env.outboundTicketOk), returnSummary, totalPrice, charged.walletBalance);
  }

  /** `createBooking`, step by step on the collections. */
  method CreateBooking(flights: FlightStore, log: AttemptLog, users: UserStore, bookings: BookingStore,
                       req: BookingRequest, userId: string, env: Environment)
    returns (resp: Response)
    requires flights.Valid() && users.Valid() && ValidDraws(env.pnrDraws)
    modifies flights, log, users, bookings
    ensures flights.Valid() && users.Valid()
    ensures (DbOf(flights, log, users, bookings), resp)
         == Purchase(old(DbOf(flights, log, users, bookings)), req, userId, env)
  {
    ghost var db0 := DbOf(flights, log, users, bookings);
    var passCount := ClampPassengers(req.passengerCount);

    if req.flightId !in flights.flights {
      return NotFound("Flight not found");
    }
    var flight := flights.flights[req.flightId];
    var returnFlight: Option<Flight> := None;
    if req.returnFlightId != "" {
      if req.returnFlightId !in flights.flights {
        return NotFound("Return flight not found");
      }
      returnFlight := Some(flights.flights[req.returnFlightId]);
    }
    var found := FindById(users.accounts, userId);
    if found.None? {
      return NotFound("User not found");
    }
    var u := found.value;
    var user := users.accounts[u];

    var outboundPrice := PriceLegStep(flights, log, userId, req.flightId, flight.currentPrice,
                                      env.now, env.outboundPricingFails);
    var returnPrice := 0;
    if returnFlight.Some? {
      returnPrice := PriceLegStep(flights, log, userId, req.returnFlightId, returnFlight.value.currentPrice,
                                  env.now, env.returnPricingFails);
    }
    ghost var q := Quote(DbOf(flights, log, users, bookings), u, user, passCount, flight, returnFlight,
                         outboundPrice, returnPrice);
    assert Prepare(db0, req, userId, env) == Success(q);
    resp := SettleStep(users, bookings, q, req, env, u, user, passCount, flight, returnFlight,
                       outboundPrice, returnPrice);
  }

  // ---------------------------------------------------------------------------
  // The corrected settlement: validate both bookings before charging
  // ---------------------------------------------------------------------------

  /**
   * Settlement with the storability of both booking records checked before
   * the debit, so that a refused creation charges nothing.
   */
  function SettleAtomic(q: Quote, req: BookingRequest, env: Environment): (r: (Db, Response))
    requires ValidQuote(q) && ValidDraws(env.pnrDraws)
    ensures ValidDb(r.0)
  {
    var total := q.TotalPrice();
    if q.user.walletBalance < total then (q.db, InsufficientFunds(total, q.user.walletBalance))
    else
      var ob := OutboundRecord(q, req, env);
      if !Storable(q.db.bookings, ob) then (q.db, CreationFailed)
      else if q.returnLeg.None? then
        (Charged(q).(bookings := q.db.bookings + [ob]),
         Created(LegSummary(ob, env.outboundTicketOk), None, total, q.user.walletBalance - total))
      else
        var rb := ReturnRecord(q, req, env);
        if !Storable(q.db.bookings + [ob], rb) then (q.db, CreationFailed)
        else
          (Charged(q).(bookings := q.db.bookings + [ob, rb]),
           Created(LegSummary(ob, env.outboundTicketOk), Some(LegSummary(rb, env.returnTicketOk)),
                   total, q.user.walletBalance - total))
  }


  /** `createBooking` with the corrected settlement. */
  function PurchaseAtomic(db: Db, req: BookingRequest, userId: string, env: Environment): (r: (Db, Response))
    requires ValidDb(db) && ValidDraws(env.pnrDraws)
    ensures ValidDb(r.0)
  {
    match Prepare(db, req, userId, env)
    case Failure(message) => (db, NotFound(message))
    case Success(q) => SettleAtomic(q, req, env)
  }

  /** Create the outbound booking and then the return booking, both known to be storable. */
  method CreateLegs(bookings: BookingStore, ob: BookingRecord, rb: Option<BookingRecord>)
    requires Storable(bookings.bookings, ob)
    requires rb.Some? ==> Storable(bookings.bookings + [ob], rb.value)
    modifies bookings
    ensures bookings.bookings == old(bookings.bookings) + [ob] + (if rb.Some? then [rb.value] else [])
  {
    var created := bookings.Create(ob);
    if rb.Some? {
      created := bookings.Create(rb.value);
    }
  }

  /** The corrected settlement on the stores: both records are checked, then the debit and the two creations. */
  method SettleAtomicStep(users: UserStore, bookings: BookingStore, ghost q: Quote, req: BookingRequest, env: Environment,
                          u: nat, user: Account, passCount: int, flight: Flight, returnFlight: Option<Flight>,
                          outboundPrice: int, returnPrice: int)
    returns (resp: Response)
    requires ValidDraws(env.pnrDraws)
    requires q == Quote(q.db.(accounts := users.accounts, bookings := bookings.bookings), u, user, passCount,
                        flight, returnFlight, outboundPrice, returnPrice)
    requires ValidQuote(q)
    modifies users, bookings
    ensures (q.db.(accounts := users.accounts, bookings := bookings.bookings), resp) == SettleAtomic(q, req, env)
  {
    var totalPrice := (outboundPrice + returnPrice) * passCount;
    assert totalPrice == q.TotalPrice();
    if user.walletBalance < totalPrice {
      return InsufficientFunds(totalPrice, user.walletBalance);
    }
    var outboundBooking := LegRecord(user, req, env, passCount, req.flightId, flight, outboundPrice, false);
    assert outboundBooking == OutboundRecord(q, req, env);
    if !Storable(bookings.bookings, outboundBooking) {
      return CreationFailed;
    }
    var returnBooking: Option<BookingRecord> := None;
    var returnSummary: Option<LegSummary> := None;
    if returnFlight.Some? {
      var rb := LegRecord(user, req, env, passCount, req.returnFlightId, returnFlight.value, returnPrice, true);
      assert rb == ReturnRecord(q, req, env);
      if !Storable(bookings.bookings + [outboundBooking], rb) {
        return CreationFailed;
      }
      returnBooking := Some(rb);
      returnSummary := Some(LegSummary(rb, env.returnTicketOk));
    }

    var charged := user.(walletBalance := user.walletBalance - totalPrice);
    users.accounts := users.accounts[u := charged];
    assert users.accounts == Charged(q).accounts;
    CreateLegs(bookings, outboundBooking, returnBooking);
    resp := Created(LegSummary(outboundBooking, env.outboundTicketOk), returnSummary, totalPrice, charged.walletBalance);
    if returnFlight.Some? {
      assert bookings.bookings == q.db.bookings + [outboundBooking, returnBooking.value];
    } else {
      assert bookings.bookings == q.db.bookings + [outboundBooking];
    }
  }

  /** `createBooking` with the corrected settlement, step by step on the collections. */
  method CreateBookingAtomic(flights: FlightStore, log: AttemptLog, users: UserStore, bookings: BookingStore,
                             req: BookingRequest, userId: string, env: Environment)
    returns (resp: Response)
    requires flights.Valid() && users.Valid() && ValidDraws(env.pnrDraws)
    modifies flights, log, users, bookings
    ensures flights.Valid() && users.Valid()
    ensures (DbOf(flights, log, users, bookings), resp)
         == PurchaseAtomic(old(DbOf(flights, log, users, bookings)), req, userId, env)
  {
    ghost var db0 := DbOf(flights, log, users, bookings);
    var passCount := ClampPassengers(req.passengerCount);

    if req.flightId !in flights.flights {
      return NotFound("Flight not found");
    }
    var flight := flights.flights[req.flightId];
    var returnFlight: Option<Flight> := None;
    if req.returnFlightId != "" {
      if req.returnFlightId !in flights.flights {
        return NotFound("Return flight not found");
      }
      returnFlight := Some(flights.flights[req.returnFlightId]);
    }
    var found := FindById(users.accounts, userId);
    if found.None? {
      return NotFound("User not found");
    }
    var u := found.value;
    var user := users.accounts[u];

    var outboundPrice := PriceLegStep(flights, log, userId, req.flightId, flight.currentPrice,
                                      env.now, env.outboundPricingFails);
    var returnPrice := 0;
    if returnFlight.Some? {
      returnPrice := PriceLegStep(flights, log, userId, req.returnFlightId, returnFlight.value.currentPrice,
                                  env.now, env.returnPricingFails);
    }
    ghost var q := Quote(DbOf(flights, log, users, bookings), u, user, passCount, flight, returnFlight,
                         outboundPrice, returnPrice);
    assert Prepare(db0, req, userId, env) == Success(q);
    resp := SettleAtomicStep(users, bookings, q, req, env, u, user, passCount, flight, returnFlight,
                             outboundPrice, returnPrice);
  }

  // ---------------------------------------------------------------------------
  // Properties of a purchase
  // ---------------------------------------------------------------------------

  /** Under unique ids, the account found for a user's id is the one at its index. */
  lemma FoundAt(accounts: seq<Account>, u: nat)
    requires UniqueIds(accounts) && u < |accounts|
    ensures FindById(accounts, accounts[u].id) == Some(u)
  {
    assert IdUsed(accounts, accounts[u].id);
  }

  /** The bookings a purchase adds for its return leg, if any. */
  function ReturnBookings(leg: Option<LegSummary>): (r: seq<BookingRecord>)
    ensures |r| == if leg.Some? then 1 else 0
  {
    if leg.Some? then [leg.value.booking] else []
  }

  /** A purchase answers 404 exactly when a flight or the user is missing, and then changes nothing. */
  lemma NotFoundIff(db: Db, req: BookingRequest, userId: string, env: Environment)
    requires ValidDb(db) && ValidDraws(env.pnrDraws)
    ensures var r := Purchase(db, req, userId, env);
      (r.1.NotFound? <==>
         req.flightId !in db.flights || (req.returnFlightId != "" && req.returnFlightId !in db.flights)
         || !IdUsed(db.accounts, userId))
      && (r.1.NotFound? ==> r.0 == db)
  {
  }

  /**
   * Unless it answers 404, a purchase records one attempt per leg, stamped
   * `now`, at the price each flight had before pricing.
   */
  lemma AttemptsRecorded(db: Db, req: BookingRequest, userId: string, env: Environment)
    requires ValidDb(db) && ValidDraws(env.pnrDraws)
    ensures var r := Purchase(db, req, userId, env);
      !r.1.NotFound? ==>
        req.flightId in db.flights && (req.returnFlightId != "" ==> req.returnFlightId in db.flights)
        && r.0.attempts == db.attempts + [Attempt(userId, req.flightId, db.flights[req.flightId].currentPrice, env.now)]
             + (if req.returnFlightId == "" then []
                else [Attempt(userId, req.returnFlightId, db.flights[req.returnFlightId].currentPrice, env.now)])
  {
    var p := Prepare(db, req, userId, env);
    if p.Success? {
      var q := p.value;
      assert q.db.attempts == Purchase(db, req, userId, env).0.attempts;
    }
  }

  /** What a created settlement answers: the quote's total, its balance after the debit, and one record per leg. */
  lemma SettleCreated(q: Quote, req: BookingRequest, env: Environment)
    requires ValidQuote(q) && ValidDraws(env.pnrDraws)
    requires Settle(q, req, env).1.Created?
    ensures Settle(q, req, env).1.outbound.booking == OutboundRecord(q, req, env)
    ensures Settle(q, req, env).1.returnLeg.Some? <==> q.returnLeg.Some?
    ensures q.returnLeg.Some? ==> Settle(q, req, env).1.returnLeg.value.booking == ReturnRecord(q, req, env)
    ensures Settle(q, req, env).1.totalPrice == q.TotalPrice() <= q.user.walletBalance
    ensures Settle(q, req, env).1.remainingBalance == q.user.walletBalance - q.TotalPrice()
  {
  }

  /**
   * The fields of a leg's record: the user, the flight, the price for all
   * passengers, the passengers cut (never padded) to the count, the leg's
   * code ending and route direction.
   */
  lemma LegRecordShape(user: Account, req: BookingRequest, env: Environment, passCount: int,
                       flightId: string, f: Flight, price: int, isReturn: bool)
    requires 1 <= passCount <= 9 && ValidDraws(env.pnrDraws)
    ensures var b := LegRecord(user, req, env, passCount, flightId, f, price, isReturn);
      b.userId == user.id && b.flightId == flightId && b.isReturn == isReturn
      && b.pnr == Stem(req, env) + (if isReturn then "R" else "O")
      && b.passengerCount == passCount && b.basePricePerPassenger == price && b.pricePaid == price * passCount
      && b.route == (if isReturn then Route(f.arrivalCity, f.departureCity) else Route(f.departureCity, f.arrivalCity))
      && b.passengerDetails == PassengerList(req.passengerDetails, req.passengerName, user.name, passCount)
  {
  }

  /**
   * A leg record always meets the schema's bounds and carries a route and a
   * code, so `Booking.create` refuses it only for a taken code or a missing
   * user, name, flight id or airline.
   */
  lemma LegRecordStorable(bookings: seq<BookingRecord>, user: Account, req: BookingRequest, env: Environment,
                          passCount: int, flightId: string, f: Flight, price: int, isReturn: bool)
    requires 1 <= passCount <= 9 && ValidDraws(env.pnrDraws) && price >= 0
    ensures var b := LegRecord(user, req, env, passCount, flightId, f, price, isReturn);
      ValidBooking(b) && b.route != "" && b.pnr != ""
      && (Storable(bookings, b) <==>
            !PnrTaken(bookings, b.pnr) && b.userId != "" && b.passengerName != "" && b.flightId != "" && b.airline != ""
            && forall k | 0 <= k < |b.passengerDetails| :: b.passengerDetails[k].name != "")
  {
    var b := LegRecord(user, req, env, passCount, flightId, f, price, isReturn);
    assert b.pricePaid == price * passCount >= 0;
    assert |b.pnr| == |Stem(req, env)| + 1;
  }

  /**
   * How the handler prices the outbound leg: after its attempt is logged, the
   * flight is evaluated with the pair's recent count, that attempt included;
   * the leg pays the evaluated price, or the price read before when pricing
   * fails. A one-way request writes no other flight.
   */
  lemma PreparePricesOutbound(db: Db, req: BookingRequest, userId: string, env: Environment)
    requires ValidDb(db) && Prepare(db, req, userId, env).Success?
    ensures req.flightId in db.flights
    ensures var q := Prepare(db, req, userId, env).value;
      var f := db.flights[req.flightId];
      var a1 := db.attempts + [Attempt(userId, req.flightId, f.currentPrice, env.now)];
      var g := Evaluate(f, RecentCount(a1, userId, req.flightId, env.now), env.now);
      q.outboundPrice == (if env.outboundPricingFails then f.currentPrice else g.currentPrice)
      && (req.returnFlightId == "" ==>
            q.db.flights == if env.outboundPricingFails then db.flights else db.flights[req.flightId := g])
  {
  }

  /**
   * How the handler prices the return leg: after both attempts are logged, the
   * return flight is evaluated on the flights the outbound step left behind;
   * the leg pays the evaluated price, or the price read before when pricing
   * fails.
   */
  lemma PreparePricesReturn(db: Db, req: BookingRequest, userId: string, env: Environment)
    requires ValidDb(db) && Prepare(db, req, userId, env).Success? && req.returnFlightId != ""
    ensures req.flightId in db.flights && req.returnFlightId in db.flights
    ensures var q := Prepare(db, req, userId, env).value;
      var f := db.flights[req.flightId];
      var a1 := db.attempts + [Attempt(userId, req.flightId, f.currentPrice, env.now)];
      var flights1 := PriceLeg(db.flights, a1, userId, req.flightId, env.now, env.outboundPricingFails, f.currentPrice).0;
      var h := db.flights[req.returnFlightId];
      var a2 := a1 + [Attempt(userId, req.returnFlightId, h.currentPrice, env.now)];
      var g := Evaluate(flights1[req.returnFlightId], RecentCount(a2, userId, req.returnFlightId, env.now), env.now);
      q.returnPrice == (if env.returnPricingFails then h.currentPrice else g.currentPrice)
      && q.db.flights == if env.returnPricingFails then flights1 else flights1[req.returnFlightId := g]
  {
  }

  /**
   * Pricing and booking together: a user's third attempt within five minutes
   * on a flight still at its base price is charged the raised base price, for
   * every passenger.
   */
  lemma ThirdAttemptChargedRaised(db: Db, req: BookingRequest, userId: string, env: Environment)
    requires ValidDb(db) && ValidDraws(env.pnrDraws)
    requires req.flightId in db.flights && !env.outboundPricingFails
    requires db.flights[req.flightId].currentPrice == db.flights[req.flightId].basePrice
    requires RecentCount(db.attempts, userId, req.flightId, env.now) == 2
    ensures var r := Purchase(db, req, userId, env);
      r.1.Created? ==>
        var base := db.flights[req.flightId].basePrice;
        r.1.outbound.booking.basePricePerPassenger == Raised(base)
        && r.1.outbound.booking.pricePaid == Raised(base) * r.1.outbound.booking.passengerCount
  {
    var f := db.flights[req.flightId];
    var p := Prepare(db, req, userId, env);
    if p.Success? {
      var q := p.value;
      var r := Settle(q, req, env);
      assert Purchase(db, req, userId, env) == r;
      var a1 := db.attempts + [Attempt(userId, req.flightId, f.currentPrice, env.now)];
      RecordCountsIff(db.attempts, Attempt(userId, req.flightId, f.currentPrice, env.now), userId, req.flightId, env.now);
      ThresholdRaisesBase(f, RecentCount(a1, userId, req.flightId, env.now), env.now);
      PreparePricesOutbound(db, req, userId, env);
      if r.1.Created? {
        SettleCreated(q, req, env);
        LegRecordShape(q.user, req, env, q.passCount, req.flightId, q.outbound, q.outboundPrice, false);
      }
    }
  }

  /**
   * The per-passenger price of a created outbound leg is the price read before
   * pricing when pricing fails, and otherwise the evaluated price, with this
   * request's attempt counted: the flight's current price, its base price or
   * the once-raised base price.
   */
  lemma LegPrices(db: Db, req: BookingRequest, userId: string, env: Environment)
    requires ValidDb(db) && ValidDraws(env.pnrDraws)
    ensures var r := Purchase(db, req, userId, env);
      r.1.Created? ==>
        req.flightId in db.flights
        && var f := db.flights[req.flightId];
           var price := r.1.outbound.booking.basePricePerPassenger;
           var a1 := db.attempts + [Attempt(userId, req.flightId, f.currentPrice, env.now)];
           (env.outboundPricingFails ==> price == f.currentPrice)
           && (!env.outboundPricingFails ==>
                 price == Evaluate(f, RecentCount(a1, userId, req.flightId, env.now), env.now).currentPrice)
           && (price == f.currentPrice || price == f.basePrice || price == Raised(f.basePrice))
  {
    var p := Prepare(db, req, userId, env);
    if p.Success? {
      var q := p.value;
      var r := Settle(q, req, env);
      assert Purchase(db, req, userId, env) == r;
      if r.1.Created? {
        SettleCreated(q, req, env);
        PreparePricesOutbound(db, req, userId, env);
      }
    }
  }

  /**
   * The same for a created return leg: when the return flight differs from the
   * outbound one, it is evaluated with both attempts of the request counted.
   */
  lemma ReturnLegPrice(db: Db, req: BookingRequest, userId: string, env: Environment)
    requires ValidDb(db) && ValidDraws(env.pnrDraws)
    ensures var r := Purchase(db, req, userId, env);
      r.1.Created? && r.1.returnLeg.Some? ==>
        req.flightId in db.flights && req.returnFlightId in db.flights
        && var f := db.flights[req.returnFlightId];
           var price := r.1.returnLeg.value.booking.basePricePerPassenger;
           var a2 := db.attempts + [Attempt(userId, req.flightId, db.flights[req.flightId].currentPrice, env.now),
                                    Attempt(userId, req.returnFlightId, f.currentPrice, env.now)];
           (env.returnPricingFails ==> price == f.currentPrice)
           && (!env.returnPricingFails && req.returnFlightId != req.flightId ==>
                 price == Evaluate(f, RecentCount(a2, userId, req.returnFlightId, env.now), env.now).currentPrice)
           && (price == f.currentPrice || price == f.basePrice || price == Raised(f.basePrice))
  {
    var p := Prepare(db, req, userId, env);
    if p.Success? {
      var q := p.value;
      var r := Settle(q, req, env);
      assert Purchase(db, req, userId, env) == r;
      if r.1.Created? && r.1.returnLeg.Some? {
        SettleCreated(q, req, env);
        PreparePricesReturn(db, req, userId, env);
        var f := db.flights[req.flightId];
        var h := db.flights[req.returnFlightId];
        assert db.attempts + [Attempt(userId, req.flightId, f.currentPrice, env.now)]
                 + [Attempt(userId, req.returnFlightId, h.currentPrice, env.now)]
            == db.attempts + [Attempt(userId, req.flightId, f.currentPrice, env.now),
                              Attempt(userId, req.returnFlightId, h.currentPrice, env.now)];
      }
    }
  }

  /** A short wallet is refused with the balance read before pricing, and nothing is charged or booked. */
  lemma InsufficientFundsChargesNothing(db: Db, req: BookingRequest, userId: string, env: Environment, u: nat)
    requires ValidDb(db) && ValidDraws(env.pnrDraws)
    requires u < |db.accounts| && db.accounts[u].id == userId
    ensures var r := Purchase(db, req, userId, env);
      r.1.InsufficientFunds? ==>
        r.0.accounts == db.accounts && r.0.bookings == db.bookings
        && r.1.available == db.accounts[u].walletBalance < r.1.required
  {
    var p := Prepare(db, req, userId, env);
    if p.Success? {
      var q := p.value;
      var r := Settle(q, req, env);
      assert Purchase(db, req, userId, env) == r;
      FoundAt(db.accounts, u);
      if r.1.InsufficientFunds? {
        assert r.0 == q.db && q.user == db.accounts[u];
      }
    }
  }

  /**
   * A created purchase debits the user exactly once by the total, which is the
   * sum of what the legs record as paid, and appends one booking per leg.
   */
  lemma CreatedChargesOnce(db: Db, req: BookingRequest, userId: string, env: Environment, u: nat)
    requires ValidDb(db) && ValidDraws(env.pnrDraws)
    requires u < |db.accounts| && db.accounts[u].id == userId
    ensures var r := Purchase(db, req, userId, env);
      r.1.Created? ==>
        0 <= r.1.remainingBalance == db.accounts[u].walletBalance - r.1.totalPrice
        && r.0.accounts == db.accounts[u := db.accounts[u].(walletBalance := r.1.remainingBalance)]
        && r.0.bookings == db.bookings + [r.1.outbound.booking] + ReturnBookings(r.1.returnLeg)
        && r.1.totalPrice == r.1.outbound.booking.pricePaid
             + (if r.1.returnLeg.Some? then r.1.returnLeg.value.booking.pricePaid else 0)
        && (r.1.returnLeg.Some? <==> req.returnFlightId != "")
  {
    var p := Prepare(db, req, userId, env);
    if p.Success? {
      var q := p.value;
      FoundAt(db.accounts, u);
      if Settle(q, req, env).1.Created? {
        SettleDebitsOnce(q, req, env);
        SettleBooksEachLeg(q, req, env);
        SettleTotalIsPaid(q, req, env);
      }
    }
  }

  /** The debit part of `CreatedChargesOnce` for a priced request: one write of the balance less the total. */
  lemma SettleDebitsOnce(q: Quote, req: BookingRequest, env: Environment)
    requires ValidQuote(q) && ValidDraws(env.pnrDraws)
    requires Settle(q, req, env).1.Created?
    ensures var r := Settle(q, req, env);
      0 <= r.1.remainingBalance == q.user.walletBalance - r.1.totalPrice
      && r.0.accounts == q.db.accounts[q.userIndex := q.user.(walletBalance := r.1.remainingBalance)]
  {
    SettleCreated(q, req, env);
    assert Settle(q, req, env).0.accounts == Charged(q).accounts;
  }

  /** The bookings part of `CreatedChargesOnce` for a priced request: one appended record per leg. */
  lemma SettleBooksEachLeg(q: Quote, req: BookingRequest, env: Environment)
    requires ValidQuote(q) && ValidDraws(env.pnrDraws)
    requires Settle(q, req, env).1.Created?
    ensures var r := Settle(q, req, env);
      r.0.bookings == q.db.bookings + [r.1.outbound.booking] + ReturnBookings(r.1.returnLeg)
      && (r.1.returnLeg.Some? <==> q.returnLeg.Some?)
  {
    var r := Settle(q, req, env);
    SettleCreated(q, req, env);
    if q.returnLeg.Some? {
      assert r.0.bookings == q.db.bookings + [r.1.outbound.booking, r.1.returnLeg.value.booking];
    } else {
      assert r.0.bookings == q.db.bookings + [r.1.outbound.booking];
    }
  }

  /** The total of a created settlement is what its legs record as paid. */
  lemma SettleTotalIsPaid(q: Quote, req: BookingRequest, env: Environment)
    requires ValidQuote(q) && ValidDraws(env.pnrDraws)
    requires Settle(q, req, env).1.Created?
    ensures var r := Settle(q, req, env);
      r.1.totalPrice == r.1.outbound.booking.pricePaid
        + (if r.1.returnLeg.Some? then r.1.returnLeg.value.booking.pricePaid else 0)
  {
    var r := Settle(q, req, env);
    SettleCreated(q, req, env);
    SplitTotal(q);
    LegRecordShape(q.user, req, env, q.passCount, req.flightId, q.outbound, q.outboundPrice, false);
    if q.returnLeg.Some? {
      LegRecordShape(q.user, req, env, q.passCount, req.returnFlightId, q.returnLeg.value, q.returnPrice, true);
    }
  }

  /** A quote's total is the sum of its legs' prices for all passengers. */
  lemma SplitTotal(q: Quote)
    ensures q.TotalPrice() == q.outboundPrice * q.passCount + q.returnPrice * q.passCount
    ensures q.returnPrice == 0 ==> q.TotalPrice() == q.outboundPrice * q.passCount
  {
  }

  /**
   * The outbound record of a created purchase belongs to the user, carries
   * the clamped passenger count, the price for all of them, the passengers cut
   * (never padded) to the count, and the code stem followed by `O`.
   */
  lemma CreatedOutboundRecord(db: Db, req: BookingRequest, userId: string, env: Environment)
    requires ValidDb(db) && ValidDraws(env.pnrDraws)
    ensures var r := Purchase(db, req, userId, env);
      r.1.Created? ==>
        var ob := r.1.outbound.booking;
        SameId(ob.userId, userId) && ob.flightId == req.flightId && !ob.isReturn
        && ob.pnr == Stem(req, env) + "O"
        && ob.passengerCount == ClampPassengers(req.passengerCount)
        && ob.pricePaid == ob.basePricePerPassenger * ob.passengerCount
        && |ob.passengerDetails| <= ob.passengerCount
        && (|req.passengerDetails| >= ob.passengerCount ==> |ob.passengerDetails| == ob.passengerCount)
        && (|req.passengerDetails| > 0 ==> ob.passengerDetails <= req.passengerDetails)
        && (|req.passengerDetails| == 0 ==> |ob.passengerDetails| == ob.passengerCount)
  {
    var p := Prepare(db, req, userId, env);
    if p.Success? {
      var q := p.value;
      var r := Settle(q, req, env);
      assert Purchase(db, req, userId, env) == r;
      if r.1.Created? {
        SettleCreated(q, req, env);
        LegRecordShape(q.user, req, env, q.passCount, req.flightId, q.outbound, q.outboundPrice, false);
      }
    }
  }

  /**
   * The return record of a created round trip belongs to the user, is marked
   * as the return leg, stores the route reversed, lists the same passengers
   * and shares the code stem, ending in `R` instead of `O`.
   */
  lemma CreatedReturnRecord(db: Db, req: BookingRequest, userId: string, env: Environment)
    requires ValidDb(db) && ValidDraws(env.pnrDraws)
    ensures var r := Purchase(db, req, userId, env);
      r.1.Created? && r.1.returnLeg.Some? ==>
        var ob := r.1.outbound.booking;
        var rb := r.1.returnLeg.value.booking;
        req.returnFlightId in db.flights
        && SameId(rb.userId, userId) && rb.flightId == req.returnFlightId && rb.isReturn
        && rb.pnr == Stem(req, env) + "R" && rb.pnr != ob.pnr
        && rb.route == Route(db.flights[req.returnFlightId].arrivalCity, db.flights[req.returnFlightId].departureCity)
        && rb.passengerDetails == ob.passengerDetails && rb.passengerCount == ob.passengerCount
  {
    var p := Prepare(db, req, userId, env);
    if p.Success? {
      var q := p.value;
      var r := Settle(q, req, env);
      assert Purchase(db, req, userId, env) == r;
      if r.1.Created? && r.1.returnLeg.Some? {
        SettleCreated(q, req, env);
        LegRecordShape(q.user, req, env, q.passCount, req.flightId, q.outbound, q.outboundPrice, false);
        LegRecordShape(q.user, req, env, q.passCount, req.returnFlightId, q.returnLeg.value, q.returnPrice, true);
        var ob := r.1.outbound.booking;
        var rb := r.1.returnLeg.value.booking;
        assert rb.pnr[|rb.pnr| - 1] == 'R' && ob.pnr[|ob.pnr| - 1] == 'O';
      }
    }
  }

  /**
   * The handler as written: with a code already taken by a stored outbound
   * booking, no purchase is created, yet the outcome after the funds check
   * is a debit with no booking.
   */
  lemma TakenCodeChargesWithoutBooking(db: Db, req: BookingRequest, userId: string, env: Environment, u: nat)
    requires ValidDb(db) && ValidDraws(env.pnrDraws)
    requires u < |db.accounts| && db.accounts[u].id == userId
    requires req.customPnr != "" && PnrTaken(db.bookings, req.customPnr + "O")
    ensures var r := Purchase(db, req, userId, env);
      !r.1.Created?
      && (r.1.CreationFailed? ==>
            r.0.bookings == db.bookings
            && r.0.accounts[u].walletBalance <= db.accounts[u].walletBalance
            && r.0.accounts == db.accounts[u := db.accounts[u].(walletBalance := r.0.accounts[u].walletBalance)])
  {
    var r := Purchase(db, req, userId, env);
    var p := Prepare(db, req, userId, env);
    if p.Success? {
      var q := p.value;
      assert r == Settle(q, req, env);
      FoundAt(db.accounts, u);
      SettleTakenCode(q, req, env);
    } else {
      assert r.1.NotFound?;
    }
  }

  /** `TakenCodeChargesWithoutBooking` for a priced request: the refusal keeps the full debit. */
  lemma SettleTakenCode(q: Quote, req: BookingRequest, env: Environment)
    requires ValidQuote(q) && ValidDraws(env.pnrDraws)
    requires req.customPnr != "" && PnrTaken(q.db.bookings, req.customPnr + "O")
    ensures var r := Settle(q, req, env);
      !r.1.Created?
      && (r.1.CreationFailed? <==> q.TotalPrice() <= q.user.walletBalance)
      && (r.1.CreationFailed? ==> r.0.bookings == q.db.bookings && r.0.accounts == Charged(q).accounts)
  {
    assert OutboundRecord(q, req, env).pnr == req.customPnr + "O";
    assert !Storable(q.db.bookings, OutboundRecord(q, req, env));
  }

  /**
   * A concrete instance: a one-passenger request for a 5000-rupee flight that
   * reuses the code `TAKEN` leaves the wallet 5000 rupees lighter and answers
   * 400 with no booking made.
   */
  lemma TakenCodeExample()
    ensures
      var f := Flight("AI1001", "Air India", "Delhi", "Mumbai", "06:00", "08:05", 500000, 500000, 0);
      var a := Account("u1", "Asha", "asha@example.com", 1000000);
      var held := BookingRecord("u0", "Ravi", [], "AI1001", "Air India", "Delhi-Mumbai",
                               500000, 1, 500000, false, 0, "TAKENO");
      var db := Db(map["AI1001" := f], [], [a], [held]);
      var req := BookingRequest("AI1001", "Asha", Some(1), "TAKEN", [], "");
      var env := Environment(60000, [0, 0, 0, 0, 0, 0], false, false, true, true);
      ValidDb(db) && ValidDraws(env.pnrDraws)
      && Purchase(db, req, "u1", env)
         == (db.(attempts := [Attempt("u1", "AI1001", 500000, 60000)], accounts := [a.(walletBalance := 500000)]),
             CreationFailed)
  {
    var f := Flight("AI1001", "Air India", "Delhi", "Mumbai", "06:00", "08:05", 500000, 500000, 0);
    var a := Account("u1", "Asha", "asha@example.com", 1000000);
    var held := BookingRecord("u0", "Ravi", [], "AI1001", "Air India", "Delhi-Mumbai",
                             500000, 1, 500000, false, 0, "TAKENO");
    var db := Db(map["AI1001" := f], [], [a], [held]);
    var req := BookingRequest("AI1001", "Asha", Some(1), "TAKEN", [], "");
    var env := Environment(60000, [0, 0, 0, 0, 0, 0], false, false, true, true);
    var attempts1 := [Attempt("u1", "AI1001", 500000, 60000)];
    assert db.attempts + [Attempt("u1", "AI1001", 500000, 60000)] == attempts1;
    assert RecentAttempts(attempts1, "u1", "AI1001", 60000 - PriceIncreaseWindow) == attempts1;
    assert Evaluate(f, 1, 60000) == f;
    assert db.flights["AI1001" := f] == db.flights;
    assert FindById(db.accounts, "u1") == Some(0);
    var q := Quote(db.(attempts := attempts1), 0, a, 1, f, None, 500000, 0);
    assert Prepare(db, req, "u1", env) == Success(q);
    assert q.TotalPrice() == 500000;
    assert OutboundRecord(q, req, env).pnr == "TAKENO";
    assert db.bookings[0].pnr == "TAKENO";
    assert !Storable(db.bookings, OutboundRecord(q, req, env));
    assert Charged(q) == db.(attempts := attempts1, accounts := [a.(walletBalance := 500000)]);
    assert Settle(q, req, env) == (Charged(q), CreationFailed);
    assert ValidDb(db);
    assert ValidDraws(env.pnrDraws);
  }

  /**
   * The corrected handler charges exactly when it books: a request that is not
   * created leaves the wallet and the bookings as they were.
   */
  lemma AtomicChargedIffBooked(db: Db, req: BookingRequest, userId: string, env: Environment)
    requires ValidDb(db) && ValidDraws(env.pnrDraws)
    ensures var r := PurchaseAtomic(db, req, userId, env);
      (r.1.Created? <==> |r.0.bookings| > |db.bookings|)
      && (!r.1.Created? ==> r.0.accounts == db.accounts && r.0.bookings == db.bookings)
  {
  }

  /**
   * The corrected handler differs from the handler as written only in what a
   * refused creation leaves behind: both answer alike, and wherever the
   * answer is not a refused creation they leave the same collections.
   */
  lemma AtomicAgreesWithPurchase(db: Db, req: BookingRequest, userId: string, env: Environment)
    requires ValidDb(db) && ValidDraws(env.pnrDraws)
    ensures PurchaseAtomic(db, req, userId, env).1 == Purchase(db, req, userId, env).1
    ensures !Purchase(db, req, userId, env).1.CreationFailed? ==>
              PurchaseAtomic(db, req, userId, env) == Purchase(db, req, userId, env)
  {
    var p := Prepare(db, req, userId, env);
    if p.Success? {
      var q := p.value;
      var ob := OutboundRecord(q, req, env);
      var db1 := q.db.(accounts := q.db.accounts[q.userIndex := q.user.(walletBalance := q.user.walletBalance - q.TotalPrice())]);
      assert Storable(db1.bookings, ob) == Storable(q.db.bookings, ob);
    }
  }
}
