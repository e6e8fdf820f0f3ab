# Flight booking core, modelled in Dafny

This project models the booking engine of the Flight Booking System in Dafny and proves properties of the model. The modelled parts are:

- **Dynamic pricing engine** (`pricing.dfy`). Every booking attempt is logged. Evaluating a flight first resets a stale elevated price (10 minutes or older) to the base price. It then raises a price still at base by 10% when the same user made at least three attempts on that flight in the last five minutes.
- **Wallet** (`wallet.dfy`). A user is resolved by id or through the demo e-mail `<id>@example.com`, and is provisioned with 50000 rupees when unknown. Debits and credits reject a non-positive amount, and a debit also rejects a short balance; neither writes any balance on failure.
- **Booking handler and code generator** (`booking.dfy`), i.e. `createBooking` and `generatePNR`. The handler clamps the passenger count and resolves the flights and the user (404). It records an attempt and prices each leg, totals the price, refuses a short wallet (400), debits once, and creates one booking per leg. The legs' codes share a stem and end in `O` and `R`.
- **Demo flight generator and seeding step** (`seeding.dfy`, `seed.dfy`). These cover the time slots, prices, durations, ids, the cap on the number of generated flights, and an ordered `insertMany` behind the 20-flight cap.
- **Search page's time helpers** (`search.dfy`). These cover the strict and lenient `HH:MM` parsers, the exact-then-within-an-hour departure filter, the deduplicated and sorted arrival-city list, and the travellers counter.

Shared definitions live in `wrappers.dfy` (`Option`, `Result`) and `models.dfy` (the flight, attempt and booking documents, plus the stores).

Modelling choices:

- **Money** is an integer number of paise. The 10% increase rounded with `toFixed(2)` is therefore the exact integer `(11 * p + 5) / 10`.
- **Time** is an integer number of milliseconds, and the current instant `now` is a parameter.
- **Collections** are classes:
  - `FlightStore` is a map keyed by `flight_id`.
  - `AttemptLog` and `BookingStore` are sequences in insertion order.
  - `UserStore` is a sequence of accounts.
- **Each service operation** is a method that changes those fields. It is proved equal to a pure function: `Evaluate`, `Debit`, `Credit`, `Resolve`, `Purchase`, `SampleFlights`, `InsertMany`, `SeedSpec`. The lemmas state the properties of those functions.
- **`Math.random`** becomes the six draws `pnrDraws`.
- **Other unpredictable outcomes** become flags of an `Environment` value:
  - whether the pricing call fails for a leg
  - whether each ticket document is produced
- **Fresh database ids** of provisioned accounts become a `freshId` parameter.

## Model

| member | source | states |
|---|---|---|
| Pricing.Raised | backend/services/pricingService.js:75-81 | the raised price is at least the old one and within half a paisa of 110% of it |
| Pricing.RecentMembers | backend/services/pricingService.js:35-42 | the recent attempts are exactly the log's attempts of the (user, flight) pair at or after the cutoff, which is inclusive |
| Pricing.ResetToBase | backend/services/pricingService.js:96-114 | the price becomes the base price; a flight already at base is not written at all; otherwise the timestamp becomes `now`; no other field changes |
| Pricing.Increase | backend/services/pricingService.js:68-86 | the price grows to the 10% raise rounded to the paisa, the timestamp becomes `now`, and no other field changes |
| Pricing.Evaluate | backend/services/pricingService.js:145-167 | the evaluated flight stays schema-valid and keeps every field but price and timestamp; its price is the old price, the base price or the raised base price, and a changed price carries `now` |
| Pricing.RecordBookingAttempt | backend/services/pricingService.js:16-27 | exactly one attempt `(user, flight, price, now)` is appended to the log |
| Pricing.GetRecentAttempts | backend/services/pricingService.js:35-47 | an attempt is returned iff it is in the log, belongs to the pair and is at or after `now - windowMs`, and it is returned as many times as the log holds it |
| Pricing.RecentMultiplicity | backend/services/pricingService.js:35-42 | the query keeps duplicates: an attempt in the window occurs as often as in the log, any other not at all |
| Pricing.ShouldIncreasePriceForAttempts | backend/services/pricingService.js:55-62 | true iff the pair has at least three attempts within the five-minute window |
| Pricing.ShouldResetPrice | backend/services/pricingService.js:125-137 | fails with flight-not-found iff the flight is missing; otherwise true iff the price has been unchanged for 10 minutes or more and differs from the base price |
| Pricing.IncreasePriceByPercentage | backend/services/pricingService.js:68-90 | a missing flight fails and writes nothing; otherwise only that flight is replaced by its raise, and the flight as read before the update is returned |
| Pricing.ResetPriceToBase | backend/services/pricingService.js:96-118 | a missing flight fails and writes nothing; otherwise only that flight is reset (unchanged when at base), and the flight as read before is returned |
| Pricing.ApplyDynamicPricing | backend/services/pricingService.js:145-167 | a missing flight fails with no write; otherwise exactly that flight becomes `Evaluate` of it (reset, then guarded increase) and the stored result is returned |
| Pricing.RecentAfterAppend | backend/services/pricingService.js:35-42 | appending an attempt to the log appends it to the recent attempts exactly when it lies in the window |
| Pricing.RecordCountsIff | backend/services/pricingService.js:5-7 | a recorded attempt raises the count by one iff it belongs to the pair and is at most five minutes old, and by nothing otherwise |
| Pricing.ReapedMembers | backend/models/BookingAttempt.js:14 | the TTL index keeps exactly the attempts younger than 900 seconds |
| Pricing.ReapingKeepsRecent | backend/models/BookingAttempt.js:14 | expiry by the TTL index never changes the five-minute count |
| Pricing.ElevatedPriceUnchanged | backend/services/pricingService.js:152-159 | no compounding: an elevated price that is not yet stale is left exactly as it is, whatever the attempt count |
| Pricing.BelowThresholdNoIncrease | backend/services/pricingService.js:147-159 | below three recent attempts, an evaluation only ever resets, never raises |
| Pricing.StaleElevatedBusyFlight | backend/services/pricingService.js:147-159 | reset runs before increase: a stale, elevated flight with three or more attempts ends at the raised base price, stamped `now` |
| Pricing.ThresholdRaisesBase | backend/services/pricingService.js:153-158 | a flight at base price with three or more recent attempts is raised by exactly one 10% step |
| Pricing.EvaluateAll | backend/services/pricingService.js:145-167 | any sequence of evaluations keeps the flight valid and never writes the base price |
| Pricing.RegularPriceInvariant | backend/services/pricingService.js:152-159 | from a base or once-raised price, no sequence of evaluations reaches any other price |
| Pricing.ThirdAttemptRaisesFourthDoesNot | backend/services/pricingService.js:145-167 | the evaluation after a third attempt raises a base price; a fourth attempt inside the reset window leaves it raised once, not twice |
| Models.BookingStore.Create | backend/models/Booking.js:3-23 | a booking is stored iff its code is not taken, its prices are at least 0, its passenger count lies in 1..9, and its user, names, flight id, airline, route and code are present; otherwise nothing changes |
| Wallet.FallbackEmail | backend/services/walletService.js:18 | the demo e-mail is the identifier followed by `@example.com` |
| Wallet.Lookup | backend/services/walletService.js:5-19 | an ObjectId-shaped identifier of a stored account finds that account, its hex digits matched in either case; any other identifier finds the first account with its fallback e-mail, or none |
| Wallet.ResolveFallbackExisting | backend/services/walletService.js:18-20 | an identifier that is not a stored ObjectId resolves to the first account already carrying its fallback e-mail, and nothing is created |
| Wallet.Provisioned | backend/services/walletService.js:20-27 | a provisioned account carries the fallback e-mail, the 50000-rupee balance and the fresh id |
| Wallet.Resolve | backend/services/walletService.js:5-29 | a known user is returned with the list unchanged; an unknown one is appended as a provisioned account and returned |
| Wallet.UserStore.ResolveUser | backend/services/walletService.js:5-29 | the store and the returned index are those of `Resolve`, and ids stay unique |
| Wallet.UserStore.GetWalletBalance | backend/services/walletService.js:35-49 | reports the resolved account's id and balance, after provisioning if needed |
| Wallet.UserStore.DeductBalance | backend/services/walletService.js:57-99 | the store and the outcome are those of `Debit` |
| Wallet.UserStore.AddBalance | backend/services/walletService.js:107-144 | the store and the outcome are those of `Credit` |
| Wallet.UserStore.HasSufficientBalance | backend/services/walletService.js:152-162 | the store and the answer are those of `Sufficient` |
| Wallet.ResolveKeepsUniqueIds | backend/services/walletService.js:20-27 | provisioning under an unused id keeps account ids unique |
| Wallet.ResolveExisting | backend/services/walletService.js:8-11 | an ObjectId-shaped id of an existing account resolves to that account and creates nothing |
| Wallet.ObjectIdCaseInsensitive | backend/services/walletService.js:8-11 | a stored ObjectId spelled with its hex digits in another case resolves to the same account, and a debit or credit through it changes that account exactly as the stored spelling does, provisioning nothing |
| Wallet.ResolveIdempotent | backend/services/walletService.js:18-28 | a second resolution of the same identifier finds the first one's account and creates no second account |
| Wallet.LookupAfterProvisioning | backend/services/walletService.js:19-27 | after provisioning, the identifier's e-mail lookup finds the new account |
| Wallet.NonPositiveRejectedFirst | backend/services/walletService.js:62-64 | a non-positive amount is rejected by debit and by credit (lines 112-114) before any lookup or provisioning, with no change |
| Wallet.DebitFailsIff | backend/services/walletService.js:74-76 | a debit of a positive amount fails iff the resolved balance is below the amount; then no balance changes and the error reports both values |
| Wallet.DebitSuccess | backend/services/walletService.js:78-89 | a successful debit lowers only the resolved account by the amount, keeps a non-negative balance non-negative and reports the new balance |
| Wallet.CreditSuccess | backend/services/walletService.js:123-134 | a positive credit succeeds, raises only the resolved account by the amount and reports the new balance |
| Wallet.SufficientMatchesDebit | backend/services/walletService.js:152-158 | `hasSufficientBalance` answers yes exactly when a debit of that positive amount would succeed |
| Wallet.DebitThenCreditRestores | backend/services/walletService.js:124-125 | a successful debit followed by a credit of the same amount restores every account |
| Booking.ClampPassengers | backend/controllers/bookingController.js:15 | the count lies in 1..9; it equals an in-range input; NaN, 0 and values below 1 give 1; values above 9 give 9 |
| Booking.PnrFromShape | backend/controllers/bookingController.js:295-301 | a generated code has six characters, each in `[A-Z0-9]` |
| Booking.GeneratePnr | backend/controllers/bookingController.js:295-302 | the loop builds six characters, the `k`-th chosen by the `k`-th draw from the 36-character alphabet |
| Booking.PassengerList | backend/controllers/bookingController.js:84-87 | sent details are cut to the count (never padded); with none sent, exactly `passCount` passengers are generated |
| Booking.GeneratedPassengers | backend/controllers/bookingController.js:87 | generated passengers have no age and start with the passenger name (else the user's name); one passenger gets the bare name, several get ` #1`, ` #2`, ... so no two share a name |
| Booking.PriceLeg | backend/controllers/bookingController.js:39-46 | without a failure, the flights become the old ones with this flight replaced by its evaluation under the pair's recent count (the leg's new attempt included), and the leg pays the evaluated price; a failure writes nothing and falls back to the pre-read price; the base price never changes |
| Booking.Quote.TotalPrice | backend/controllers/bookingController.js:60 | the total of non-negative leg prices and counts is non-negative |
| Booking.Prepare | backend/controllers/bookingController.js:9-58 | succeeds iff both flights and the user exist; then one attempt per leg is logged at the pre-read price, the accounts and bookings are untouched, and each leg's price is the pre-read price on a failure and otherwise the current, base or raised base price |
| Booking.PreparePricesOutbound | backend/controllers/bookingController.js:39-46 | the outbound leg pays the flight's evaluation with its attempt already logged and counted, or the pre-read price on a failure; a one-way request writes only that flight |
| Booking.PreparePricesReturn | backend/controllers/bookingController.js:48-58 | the return leg is evaluated on the flights the outbound step left, with both attempts logged, and pays that price or the pre-read one on a failure; the final flights are exactly those two writes |
| Booking.ThirdAttemptChargedRaised | backend/controllers/bookingController.js:39-60 | a user's third attempt within five minutes on a flight at its base price, priced without failure, is charged the raised base price for every passenger |
| Booking.Charged | backend/controllers/bookingController.js:71-74 | the collections after the single debit stay valid: flights filed under their ids, account ids unique |
| Booking.Settle | backend/controllers/bookingController.js:60-204 | the collections after the settlement stay valid |
| Booking.SettleSpec | backend/controllers/bookingController.js:60-168 | a short wallet changes nothing; otherwise the debit is saved, and then either both bookings are created or the first refused creation ends the request with the debit kept |
| Booking.Purchase | backend/controllers/bookingController.js:9-215 | the collections after a request stay valid |
| Booking.PriceLegStep | backend/controllers/bookingController.js:39-46 | the leg's attempt is logged, then the leg is priced or falls back, as `PriceLeg` says |
| Booking.Creation | backend/controllers/bookingController.js:90-145 | both creations succeeding append the outbound then the return record; a refusal stops with nothing or only the outbound record added |
| Booking.CreateAsWritten | backend/controllers/bookingController.js:90-145 | the `Booking.create` calls on the store end in the list and outcome of `Creation` |
| Booking.SettleByCreation | backend/controllers/bookingController.js:60-187 | with the funds there, the settlement is the single debit followed by `Creation`, answering created or a refused creation |
| Booking.BuildLegs | backend/controllers/bookingController.js:81-145 | the records built in place are the outbound record and, exactly for a round trip, the return record |
| Booking.SettleStep | backend/controllers/bookingController.js:60-204 | the funds check, debit and creations on the stores end in the state and response of `Settle` |
| Booking.CreateBooking | backend/controllers/bookingController.js:9-215 | the handler on the four stores ends in the state and response of `Purchase` |
| Booking.SettleAtomic | backend/controllers/bookingController.js:71-145 | the corrected settlement keeps the collections valid |
| Booking.PurchaseAtomic | backend/controllers/bookingController.js:9-215 | the corrected handler keeps the collections valid |
| Booking.CreateLegs | backend/controllers/bookingController.js:89-145 | two creations known to be accepted append the outbound record, then the return record |
| Booking.SettleAtomicStep | backend/controllers/bookingController.js:60-204 | the corrected settlement on the stores ends in the state and response of `SettleAtomic` |
| Booking.CreateBookingAtomic | backend/controllers/bookingController.js:9-215 | the corrected handler on the stores ends in the state and response of `PurchaseAtomic` |
| Booking.NotFoundIff | backend/controllers/bookingController.js:17-36 | a request answers 404 iff a flight or the user is missing, and then nothing changes, not even the attempt log |
| Booking.AttemptsRecorded | backend/controllers/bookingController.js:39-50 | a request that passes the lookups records exactly one attempt per leg, stamped `now`, at the price read before pricing |
| Booking.SettleCreated | backend/controllers/bookingController.js:170-187 | a created settlement answers the quote's total, the balance less that total, and the outbound and (exactly for a round trip) return records |
| Booking.LegRecordShape | backend/controllers/bookingController.js:91-103 | a leg record holds the user, the flight, the passenger list, the price for all passengers, the `O`/`R` code and the route in the leg's direction |
| Booking.LegPrices | backend/controllers/bookingController.js:39-46 | a created outbound leg's per-passenger price is the pre-read price when pricing fails, and otherwise exactly the evaluated price with this request's attempt counted (one of current, base, raised base) |
| Booking.ReturnLegPrice | backend/controllers/bookingController.js:48-58 | a created return leg's price is the pre-read price when pricing fails, and otherwise, for a flight other than the outbound one, exactly the evaluated price with both attempts counted |
| Booking.LegRecordStorable | backend/models/Booking.js:3-23 | a leg record always meets the schema's bounds and carries a route and a code, so it is refused only for a taken code or a missing user, name, flight id or airline |
| Booking.InsufficientFundsChargesNothing | backend/controllers/bookingController.js:62-69 | a short wallet answers 400 with the balance read before pricing, below the required total, and charges and books nothing |
| Booking.CreatedChargesOnce | backend/controllers/bookingController.js:60-145 | a created purchase debits the user once by the total, which is the sum of the legs' paid prices; it appends one booking per leg and has a return leg iff one was requested |
| Booking.SettleDebitsOnce | backend/controllers/bookingController.js:71-74 | a created settlement writes only the user's balance, lowered by the total to a non-negative remaining balance |
| Booking.SettleBooksEachLeg | backend/controllers/bookingController.js:89-145 | a created settlement appends the outbound booking and, exactly for a round trip, the return booking |
| Booking.SettleTotalIsPaid | backend/controllers/bookingController.js:60-140 | the total equals the sum of the legs' recorded paid prices |
| Booking.CreatedOutboundRecord | backend/controllers/bookingController.js:85-103 | the outbound record belongs to the user (its stored id) and flight, is not a return, ends in `O`, carries the clamped count and the price for all passengers, and lists the sent passengers cut, never padded, to the count |
| Booking.CreatedReturnRecord | backend/controllers/bookingController.js:126-145 | the return record is marked as return and stores the reversed route; it ends in `R`, so its code differs from the outbound one; it shares the passengers and the count |
| Booking.TakenCodeChargesWithoutBooking | backend/controllers/bookingController.js:72-103 | as written, a custom code whose `O` form is taken never yields a booking, yet the 400 that follows the funds check leaves the debit in place |
| Booking.SettleTakenCode | backend/controllers/bookingController.js:72-103 | for a priced request with a taken code, the creation fails iff the funds suffice, keeping the full debit and adding no booking |
| Booking.TakenCodeExample | backend/controllers/bookingController.js:72-103 | a concrete request with a taken custom code ends in a 400 with the user 5000 rupees poorer and no booking |
| Booking.AtomicChargedIffBooked | backend/controllers/bookingController.js:71-145 | the corrected handler books iff it answers success, and a request that is not created changes neither wallet nor bookings |
| Booking.AtomicAgreesWithPurchase | backend/controllers/bookingController.js:9-215 | the corrected handler gives the same answers, and the same collections whenever the answer is not a refused creation |
| Seeding.ClockMinutesOfHhmm | backend/services/flightService.js:18 | a padded `HH:MM` text reads back as `h * 60 + m` |
| Seeding.Slots | backend/services/flightService.js:15-20 | the slot list has at least one slot per hour |
| Seeding.PushHourSlots | backend/services/flightService.js:17-19 | the inner loop appends the hour's slots, from minute 0 in steps |
| Seeding.BuildSlots | backend/services/flightService.js:15-20 | the nested loops build exactly `Slots(step)` |
| Seeding.HourSlotsCount | backend/services/flightService.js:17-19 | an hour from minute `m` has `ceil((60 - m) / step)` slots |
| Seeding.SlotsCount | backend/services/flightService.js:15-20 | the first `h` hours have `h * ceil(60 / step)` slots |
| Seeding.HourSlotsAscending | backend/services/flightService.js:17-19 | an hour's slots strictly ascend within that hour |
| Seeding.SlotsUpToAscending | backend/services/flightService.js:16-20 | the first `h` hours' slots strictly ascend within those hours |
| Seeding.SlotsAscending | backend/services/flightService.js:15-20 | every slot is a time of day and the slots strictly ascend |
| Seeding.AirlineCode | backend/services/flightService.js:45 | the airline code has at most three characters, none of them a lower-case letter |
| Seeding.AirlineCodeDigitFree | backend/services/flightService.js:45 | a digit-free airline name gives a digit-free code |
| Seeding.DecimalRoundTrip | backend/services/flightService.js:46 | the decimal text of the counter reads back as the counter |
| Seeding.FlightIdsDistinct | backend/services/flightService.js:45-46 | ids built from distinct counter values differ, whatever the digit-free airlines |
| Seeding.OtherCitiesSpec | backend/services/flightService.js:26 | the arrival list is exactly the cities other than the departure city |
| Seeding.Duration | backend/services/flightService.js:33 | the duration lies in 60..239 minutes |
| Seeding.BaseRupees | backend/services/flightService.js:49 | the base price lies in 2000..3000 rupees |
| Seeding.CurrentRupees | backend/services/flightService.js:50 | the current price is at least the base price |
| Seeding.CurrentRupeesRounds | backend/services/flightService.js:50 | the current price is `base * (1 + 0.02 * (i mod 10))` rounded to the nearest rupee, halves up |
| Seeding.ArrivalCity | backend/services/flightService.js:30 | the arrival city is one of the cities and differs from the departure city, whenever another city exists |
| Seeding.DepartureSlot | backend/services/flightService.js:27-31 | the departure time is one of the slots |
| Seeding.ArrivalTime | backend/services/flightService.js:41-42 | the arrival clock time is the departure plus the duration, modulo a day |
| Seeding.RowLength | backend/services/flightService.js:68-69 | a city never emits more than `flightsPerDeparture` flights |
| Seeding.SampleFlights | backend/services/flightService.js:4-74 | the generator's output has `GeneratedCount` flights |
| Seeding.SampleFlightTimes | backend/services/flightService.js:31-42 | each sample departs at a slot and arrives its duration later, modulo a day |
| Seeding.SampleFlightsGood | backend/services/flightService.js:24-71 | each sample has the following: a listed departure city and airline; the id `initials + (1000 + k)`; an arrival city that is listed and different; prices in range, with current at least base; a slot departure |
| Seeding.EmitCity | backend/services/flightService.js:27-70 | one city's loop appends its row and stops right after the push that reaches the cap |
| Seeding.GenerateSampleFlights | backend/services/flightService.js:4-74 | the loops return exactly `SampleFlights` |
| Seeding.GeneratedCountClosed | backend/services/flightService.js:68-69 | the count is `n * perDeparture` within the cap; otherwise it is the cap plus one flight for every later city |
| Seeding.SampleIdsUnique | backend/services/flightService.js:44-65 | with digit-free airline names, all generated ids are distinct |
| Seeding.SeedGenerationOvershoots | backend/services/flightService.js:87 | with the seeding options the generator returns 21 flights, one more than the target |
| Seed.InsertMany | backend/services/flightService.js:90 | an ordered insert reports at most the batch size, and completeness iff all went in |
| Seed.InsertManyKeeps | backend/services/flightService.js:90 | documents already stored are kept unchanged |
| Seed.InsertManyFiles | backend/services/flightService.js:90 | each inserted flight is filed under its own id |
| Seed.InsertManySize | backend/services/flightService.js:90 | the collection grows by exactly the inserted count |
| Seed.InsertManyKeys | backend/services/flightService.js:90 | the new ids are the old ids plus those of the inserted prefix |
| Seed.InsertManyCompleteIff | backend/services/flightService.js:90 | the insert completes iff no batch id is taken, before or within the batch |
| Seed.InsertManyKeepsFiled | backend/services/flightService.js:90 | inserting valid flights keeps every document filed under its id and valid |
| Seed.InsertInto | backend/services/flightService.js:90 | the insertion loop ends in the collection, count and completeness of `InsertMany` |
| Seed.SeedBatch | backend/services/flightService.js:87-89 | the batch handed to the insert has exactly 20 flights |
| Seed.SeedFlights | backend/services/flightService.js:77-95 | seeding on the store ends in the collection and report of `SeedSpec` |
| Seed.DefaultAirlinesDigitFree | backend/services/flightService.js:7 | no default airline name contains a digit |
| Seed.SampleFlightsStorable | backend/services/flightService.js:44-65 | every generated flight is schema-valid and all ids are distinct |
| Seed.SeedBatchGood | backend/services/flightService.js:87-89 | the 20 seed flights are schema-valid with distinct ids |
| Seed.SeedCap | backend/services/flightService.js:79-90 | with 20 or more flights nothing changes; otherwise at most 20 are added and existing flights are kept; success means all 20 went in, and failure means fewer did |
| Seed.SeedSucceedsIff | backend/services/flightService.js:87-91 | below the cap, seeding reports 20 inserted flights iff none of the batch's ids is already stored |
| Seed.SeedKeepsFiled | backend/services/flightService.js:90 | seeding keeps the collection well filed |
| Search.NumberOfDecimal | frontend/src/components/FlightSearch.jsx:401 | `Number` reads back the decimal text of a natural number |
| Search.NumberOfPad2 | frontend/src/components/FlightSearch.jsx:401 | `Number` reads back a zero-padded two-digit field |
| Search.SplitJoin | frontend/src/components/FlightSearch.jsx:401 | joining the pieces of a split gives the text back |
| Search.SplitPiecesFree | frontend/src/components/FlightSearch.jsx:401 | no piece of a split contains the separator |
| Search.SplitNoSeparator | frontend/src/components/FlightSearch.jsx:401 | a text without the separator splits into itself alone |
| Search.SplitAtSeparator | frontend/src/components/FlightSearch.jsx:401 | a split at the first separator gives the part before it followed by the split of the rest |
| Search.SplitHhmm | frontend/src/components/FlightSearch.jsx:401 | an `HH:MM` text splits into its two padded fields |
| Search.TimeOfHhmm | frontend/src/components/FlightSearch.jsx:399-404 | both parsers read an `HH:MM` text as `h * 60 + m` |
| Search.LenientAgreesWithSafe | frontend/src/components/FlightSearch.jsx:443 | where the safe parser yields a number, the lenient one yields the same |
| Search.LenientDiffersFromSafe | frontend/src/components/FlightSearch.jsx:443 | for an empty text, an unreadable hour and a missing minute, the safe parser gives null, null and NaN, while the lenient one gives 0, 30 and 420 |
| Search.FilterMembers | frontend/src/components/FlightSearch.jsx:396 | `filter` keeps exactly the elements that pass |
| Search.DepartureFilterSpec | frontend/src/components/FlightSearch.jsx:394-416 | no time keeps all flights; an exact match keeps exactly the flights at that time; otherwise only flights with readable times within 60 minutes, inclusive, of a readable target |
| Search.UnreadableTargetFindsNothing | frontend/src/components/FlightSearch.jsx:405-413 | with no exact match and an unreadable target, the filter returns nothing |
| Search.BelowIrreflexive | frontend/src/components/FlightSearch.jsx:460 | no text sorts before itself |
| Search.BelowTransitive | frontend/src/components/FlightSearch.jsx:460 | the sort order is transitive |
| Search.BelowTotal | frontend/src/components/FlightSearch.jsx:460 | of two different texts, one sorts before the other |
| Search.BelowAsymmetric | frontend/src/components/FlightSearch.jsx:460 | two texts never sort before each other |
| Search.FirstOccurrencesSpec | frontend/src/components/FlightSearch.jsx:459 | the first-occurrence filter keeps every value, each once |
| Search.InsertPerm | frontend/src/components/FlightSearch.jsx:460 | inserting adds exactly one occurrence |
| Search.AscendingHead | frontend/src/components/FlightSearch.jsx:460 | in an ascending list, the head sorts before every later element |
| Search.InsertAscending | frontend/src/components/FlightSearch.jsx:460 | inserting a new value into an ascending list keeps it ascending |
| Search.SortStringsPerm | frontend/src/components/FlightSearch.jsx:460 | sorting is a permutation |
| Search.SortStringsSpec | frontend/src/components/FlightSearch.jsx:460 | sorting a list without repeats gives a strictly ascending permutation of it |
| Search.AscendingUnique | frontend/src/components/FlightSearch.jsx:458-460 | two ascending lists with the same values are equal, so the result is the only sorted list of those cities |
| Search.ArrivalCities | frontend/src/components/FlightSearch.jsx:458 | the mapped list has one city per flight |
| Search.CandidatesSpec | frontend/src/components/FlightSearch.jsx:447-457 | the candidates are exactly the flights from the departure city that pass the exact-then-within-an-hour test |
| Search.ExactCandidates | frontend/src/components/FlightSearch.jsx:450-452 | with an exact match, the candidates are the flights from the city at exactly that time |
| Search.NearCandidates | frontend/src/components/FlightSearch.jsx:453-456 | without one, the candidates are the flights from the city within 60 minutes under the lenient parser |
| Search.AvailableArrivalCitiesSpec | frontend/src/components/FlightSearch.jsx:446-461 | the arrival list is strictly ascending (so without repeats) and holds exactly the arrival cities of the candidates |
| Search.DecrementTravellers | frontend/src/components/FlightSearch.jsx:756 | the minus button never goes below 1, never raises a count of at least 1, and above 1 lowers it by one |
| Search.IncrementTravellers | frontend/src/components/FlightSearch.jsx:767 | the plus button never goes above 9, never lowers a count of at most 9, and below 9 raises it by one |
| Search.TravellersStayInRange | frontend/src/components/FlightSearch.jsx:756-767 | from the initial range, any sequence of presses keeps the count in 1..9 |

## Left out

- Floating point: prices are integer paise, and the 10% raise is exact integer rounding. JavaScript's binary rounding in `toFixed(2)`, `Math.round` on the seed's current price, and number equality at other values are not modelled.
- Persistence failures: a failing `find`, `save`, `updateOne` or `insertMany` for a reason other than the unique indexes is not modelled. The one exception is the pricing call inside `createBooking`, whose failure is an input flag.
- Pricing.GetRecentAttempts: the attempts come back in log order, not sorted newest first (line 41). Only their count and membership are used, and equal timestamps have no defined order anyway.
- Booking.PriceLeg: a failing pricing call writes nothing in the model. In the source, `applyDynamicPricing` can fail after `resetPriceToBase` has already written (lines 148-150 of pricingService.js), when the attempts query at line 153 or the re-read at line 162 throws. The stored price is then back at base while the leg is charged the elevated price read before pricing.
- Transactions and concurrency: racing debits, interleaved pricing updates, and the session's locking are not modelled. A session abort is "no balance written".
- TTL index: the background reaper of attempts is not a step of the model. `Pricing.ReapingKeepsRecent` shows it cannot change a count.
- Ticket PDFs: `pdfService.js` is not part of this model. Whether each ticket is produced is an input flag; it only sets `ticketAvailable`.
- Clocks and calendars: `now` is a parameter. The seed's `departure_date` (today plus `i mod 7` days, with time zone and daylight saving) is not modelled. Arrival times are computed on the clock, modulo a day.
- Database ids: ObjectId allocation is a `freshId` parameter. `ObjectId.isValid` is reduced to "24 hexadecimal digits", and the 12-byte-string form is not modelled. `findById` is modelled by `Wallet.IdKey`, which compares ids with their hex digits in either case: for a 24-hex-digit id this is the cast to 12 bytes; any other id reaches `findById` only through the booking handler, whose id comes from the login token; there `findById` would raise a cast error, while the model still looks the id up (finding an account only if one is stored under it up to the case of A-F) and otherwise answers that the user is missing.
- `Number` on texts: only the empty text, digit runs and signed digit runs are numbers. The following all read as `NaN` in the model, though JavaScript reads some of them as numbers:
  - surrounding whitespace
  - fractions
  - exponents
  - hexadecimal and `Infinity`
- `Search.Below`: the sort compares characters, while JavaScript compares UTF-16 code units. The two agree on the basic multilingual plane.
- `Seeding.Initials`: upper-casing covers ASCII letters only.
- An absent `departure_time` or `arrival_city` is modelled as the empty string.
- `Seeding.BuildSlots`: it requires `minuteStep >= 1`; the source's loop never ends for a step of 0 or less.
- `Seeding.SampleFlights`: it requires a non-empty airline list, because the source reads `airlines[(depIdx + i) % 0]` otherwise.
- `Seeding.SampleFlight` has no contract of its own. Its promises are stated through `GoodSample` in `Seeding.SampleFlightsGood`.
- `Seed.InsertMany`: only the unique `flight_id` index refuses a document. Other schema checks cannot fail on generated flights, as `Seed.SampleFlightsStorable` shows. The error that `seedFlights` rethrows is modelled as the report `SeedFailed`.
- `Search.Filter`: that it keeps the input order is not stated in a lemma. The properties proved are about membership.
- HTTP and authentication plumbing are not modelled: routes, middleware, JSON shapes, messages, currency symbols and log lines.
- The regex search query, the React state and the other pages are not part of this model.
- `createBooking` reads the user by `findById` only, so it is modelled without `resolveUser`, as the handler is written.

## Findings

| source | as written | input that shows it | evidently intended | confidence | as-written member | corrected member |
|---|---|---|---|---|---|---|
| backend/controllers/bookingController.js:72-103 | the wallet is debited and saved before `Booking.create`; when the create throws, the catch at lines 205-209 answers 400 and the debit stays | a request whose custom `pnr` stem `S` has `S + "O"` already stored, or a generated code colliding with a stored one, sent by a user who can afford it | no charge without a booking: a refused booking leaves the wallet as it was | high (not executed) | Booking.TakenCodeChargesWithoutBooking | Booking.AtomicChargedIffBooked |

The handler as written is `Booking.Purchase` and `Booking.CreateBooking`. `Booking.TakenCodeExample` is a concrete counterexample: a wallet of 10000 rupees and a held code `TAKENO`, which ends in a 400 with 5000 rupees charged. The corrected handler is `Booking.PurchaseAtomic` and `Booking.CreateBookingAtomic`. It checks both records before the debit. `Booking.AtomicAgreesWithPurchase` shows it answers every request exactly as the original does and differs only in what a refused creation leaves behind.
