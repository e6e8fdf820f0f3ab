/**
 * The dynamic pricing engine of `backend/services/pricingService.js`.
 *
 * Every booking attempt is appended to an attempt log. Evaluating a flight
 * first resets a stale elevated price to the base price, then raises a price
 * that is still at base by 10% (rounded to the paisa) when the same user made
 * at least three attempts on that flight in the last five minutes.
 *
 * The pure functions below (`RecentAttempts`, `ResetDue`, `Evaluate`, ...)
 * specify the engine; the methods change the stores step by step, as the
 * service does, and are proved against those functions.
 */
module Pricing {
  import opened Wrappers
  import opened Models

  /** Attempts younger than this count towards the threshold (5 minutes). */
  const PriceIncreaseWindow: int := 5 * 60 * 1000
  /** An elevated price older than this is reset (10 minutes). */
  const PriceResetWindow: int := 10 * 60 * 1000
  /** Attempts needed within the increase window to raise the price. */
  const AttemptsThreshold: nat := 3
  /** The attempt log's TTL index removes attempts older than this (900 s). */
  const AttemptRetention: int := 900 * 1000

  datatype PricingError = FlightNotFound

  // ---------------------------------------------------------------------------
  // Specification
  // ---------------------------------------------------------------------------

  /**
   * A price raised by 10% and rounded to the nearest paisa, halves upwards
   * (`parseFloat((price * 1.10).toFixed(2))` on rupees).
   */
  function Raised(price: int): (r: int)
    requires price >= 0
    ensures r >= price
    ensures -5 < 10 * r - 11 * price <= 5
  {
    (price * 11 + 5) / 10
  }

  /** Does attempt `a` belong to (`userId`, `flightId`) and lie at or after `cutoff`? */
  predicate InWindow(a: Attempt, userId: string, flightId: string, cutoff: int) {
    a.userId == userId && a.flightId == flightId && a.attemptTime >= cutoff
  }

  /** The attempts of the log that the query of `getRecentAttempts` returns, in log order. */
  function RecentAttempts(log: seq<Attempt>, userId: string, flightId: string, cutoff: int): (r: seq<Attempt>)
    ensures |r| <= |log|
  {
    if log == [] then []
    else (if InWindow(log[0], userId, flightId, cutoff) then [log[0]] else [])
         + RecentAttempts(log[1..], userId, flightId, cutoff)
  }

  /** The query returns exactly the attempts of the pair at or after the cutoff. */
  lemma {:induction false} RecentMembers(log: seq<Attempt>, userId: string, flightId: string, cutoff: int)
    ensures forall a :: a in RecentAttempts(log, userId, flightId, cutoff) <==> a in log && InWindow(a, userId, flightId, cutoff)
  {
    if log != [] {
      RecentMembers(log[1..], userId, flightId, cutoff);
      assert log == [log[0]] + log[1..];
    }
  }

  /**
   * The query keeps duplicates: an attempt in the window occurs in the result
   * as often as in the log, and any other attempt not at all.
   */
  lemma {:induction false} RecentMultiplicity(log: seq<Attempt>, userId: string, flightId: string, cutoff: int)
    ensures forall a :: multiset(RecentAttempts(log, userId, flightId, cutoff))[a]
                        == if InWindow(a, userId, flightId, cutoff) then multiset(log)[a] else 0
  {
    if log != [] {
      RecentMultiplicity(log[1..], userId, flightId, cutoff);
      assert log == [log[0]] + log[1..];
    }
  }

  /** The number of attempts by `userId` on `flightId` within the increase window ending at `now`. */
  function RecentCount(log: seq<Attempt>, userId: string, flightId: string, now: int): nat {
    |RecentAttempts(log, userId, flightId, now - PriceIncreaseWindow)|
  }

  /** Is the price stale (unchanged for 10 minutes or more) and elevated? */
  predicate ResetDue(f: Flight, now: int) {
    now - f.lastPriceUpdate >= PriceResetWindow && f.currentPrice != f.basePrice
  }

  /** The flight after `resetPriceToBase`: a write only when the price is elevated. */
  function ResetToBase(f: Flight, now: int): (r: Flight)
    ensures r.currentPrice == f.basePrice
    ensures f.currentPrice == f.basePrice ==> r == f
    ensures f.currentPrice != f.basePrice ==> r.lastPriceUpdate == now
    ensures r.(currentPrice := f.currentPrice, lastPriceUpdate := f.lastPriceUpdate) == f
  {
    if f.currentPrice != f.basePrice then f.(currentPrice := f.basePrice, lastPriceUpdate := now) else f
  }

  /** The flight after `increasePriceByPercentage`: raised price, fresh timestamp. */
  function Increase(f: Flight, now: int): (r: Flight)
    requires f.currentPrice >= 0
    ensures r.currentPrice >= f.currentPrice && r.lastPriceUpdate == now
    ensures -5 < 10 * r.currentPrice - 11 * f.currentPrice <= 5
    ensures r.(currentPrice := f.currentPrice, lastPriceUpdate := f.lastPriceUpdate) == f
  {
    f.(currentPrice := Raised(f.currentPrice), lastPriceUpdate := now)
  }

  /**
   * The flight after `applyDynamicPricing` at instant `now`, given the number
   * of recent attempts: reset first, then the non-compounding increase.
   */
  function Evaluate(f: Flight, recent: nat, now: int): (r: Flight)
    requires ValidFlight(f)
    ensures ValidFlight(r)
    ensures r.(currentPrice := f.currentPrice, lastPriceUpdate := f.lastPriceUpdate) == f
    ensures r.currentPrice == f.currentPrice || r.currentPrice == f.basePrice
         || r.currentPrice == Raised(f.basePrice)
    ensures r.currentPrice != f.currentPrice ==> r.lastPriceUpdate == now
  {
    var g := if ResetDue(f, now) then ResetToBase(f, now) else f;
    if recent >= AttemptsThreshold && g.currentPrice == g.basePrice then Increase(g, now) else g
  }

  // ---------------------------------------------------------------------------
  // Service operations over the stores
  // ---------------------------------------------------------------------------

  /** `recordBookingAttempt`: append one attempt stamped `now`. */
  method RecordBookingAttempt(log: AttemptLog, userId: string, flightId: string, currentPrice: int, now: int)
    returns (a: Attempt)
    modifies log
    ensures a == Attempt(userId, flightId, currentPrice, now)
    ensures log.attempts == old(log.attempts) + [a]
  {
    a := Attempt(userId, flightId, currentPrice, now);
    log.attempts := log.attempts + [a];
  }

  /** `getRecentAttempts`: the attempts of (`userId`, `flightId`) at or after `now - windowMs`. */
  function GetRecentAttempts(log: AttemptLog, userId: string, flightId: string, windowMs: int, now: int)
    : (r: seq<Attempt>)
    reads log
    ensures forall a :: a in r <==>
      a in log.attempts && a.userId == userId && a.flightId == flightId && a.attemptTime >= now - windowMs
    ensures forall a :: multiset(r)[a] ==
                        if a.userId == userId && a.flightId == flightId && a.attemptTime >= now - windowMs
                        then multiset(log.attempts)[a] else 0
  {
    RecentMembers(log.attempts, userId, flightId, now - windowMs);
    RecentMultiplicity(log.attempts, userId, flightId, now - windowMs);
    RecentAttempts(log.attempts, userId, flightId, now - windowMs)
  }

  /** `shouldIncreasePriceForAttempts`: at least three attempts within five minutes. */
  function ShouldIncreasePriceForAttempts(log: AttemptLog, userId: string, flightId: string, now: int)
    : (r: bool)
    reads log
    ensures r <==> RecentCount(log.attempts, userId, flightId, now) >= AttemptsThreshold
  {
    |GetRecentAttempts(log, userId, flightId, PriceIncreaseWindow, now)| >= AttemptsThreshold
  }

  /** `shouldResetPrice`: fails for an unknown flight, otherwise tells whether a reset is due. */
  function ShouldResetPrice(store: FlightStore, flightId: string, now: int): (r: Result<bool, PricingError>)
    reads store
    ensures r.Failure? <==> flightId !in store.flights
    ensures r.Failure? ==> r.error == FlightNotFound
    ensures r.Success? ==> (r.value <==>
      now - store.flights[flightId].lastPriceUpdate >= PriceResetWindow
      && store.flights[flightId].currentPrice != store.flights[flightId].basePrice)
  {
    if flightId !in store.flights then Failure(FlightNotFound)
    else Success(ResetDue(store.flights[flightId], now))
  }

  /**
   * `increasePriceByPercentage`: raise the price by 10% and stamp it; returns
   * the flight as it was read before the update.
   */
  method IncreasePriceByPercentage(store: FlightStore, flightId: string, now: int)
    returns (r: Result<Flight, PricingError>)
    requires store.Valid()
    modifies store
    ensures store.Valid()
    ensures flightId !in old(store.flights) ==>
      r == Failure(FlightNotFound) && store.flights == old(store.flights)
    ensures flightId in old(store.flights) ==>
      r == Success(old(store.flights)[flightId])
      && store.flights == old(store.flights)[flightId := Increase(old(store.flights)[flightId], now)]
  {
    if flightId !in store.flights {
      return Failure(FlightNotFound);
    }
    var flight := store.flights[flightId];
    store.flights := store.flights[flightId := flight.(currentPrice := Raised(flight.currentPrice), lastPriceUpdate := now)];
    r := Success(flight);
  }

  /**
   * `resetPriceToBase`: put an elevated price back to base and stamp it; an
   * unelevated flight is not written. Returns the flight as read before.
   */
  method ResetPriceToBase(store: FlightStore, flightId: string, now: int)
    returns (r: Result<Flight, PricingError>)
    requires store.Valid()
    modifies store
    ensures store.Valid()
    ensures flightId !in old(store.flights) ==>
      r == Failure(FlightNotFound) && store.flights == old(store.flights)
    ensures flightId in old(store.flights) ==>
      r == Success(old(store.flights)[flightId])
      && store.flights == old(store.flights)[flightId := ResetToBase(old(store.flights)[flightId], now)]
  {
    if flightId !in store.flights {
      return Failure(FlightNotFound);
    }
    var flight := store.flights[flightId];
    if flight.currentPrice != flight.basePrice {
      store.flights := store.flights[flightId := flight.(currentPrice := flight.basePrice, lastPriceUpdate := now)];
    }
    r := Success(flight);
  }

  /**
   * `applyDynamicPricing`: the reset check and reset, then the threshold check
   * and the guarded increase; returns the flight as stored afterwards.
   */
  method ApplyDynamicPricing(store: FlightStore, log: AttemptLog, userId: string, flightId: string, now: int)
    returns (r: Result<Flight, PricingError>)
    requires store.Valid()
    modifies store
    ensures store.Valid()
    ensures flightId !in old(store.flights) ==>
      r == Failure(FlightNotFound) && store.flights == old(store.flights)
    ensures flightId in old(store.flights) ==>
      var f := Evaluate(old(store.flights)[flightId], RecentCount(log.attempts, userId, flightId, now), now);
      r == Success(f) && store.flights == old(store.flights)[flightId := f]
  {
    var reset := ShouldResetPrice(store, flightId, now);
    if reset.Failure? {
      return Failure(reset.error);
    }
    if reset.value {
      var _ := ResetPriceToBase(store, flightId, now);
    }
    if ShouldIncreasePriceForAttempts(log, userId, flightId, now) {
      var flight := store.flights[flightId];
      if flight.currentPrice == flight.basePrice {
        var _ := IncreasePriceByPercentage(store, flightId, now);
      }
    }
    r := Success(store.flights[flightId]);
  }

  // ---------------------------------------------------------------------------
  // Properties of the engine
  // ---------------------------------------------------------------------------

  /** Recording an attempt adds it to the recent attempts exactly when it is in the window. */
  lemma {:induction false} RecentAfterAppend(log: seq<Attempt>, a: Attempt, userId: string, flightId: string, cutoff: int)
    ensures RecentAttempts(log + [a], userId, flightId, cutoff)
         == RecentAttempts(log, userId, flightId, cutoff) + (if InWindow(a, userId, flightId, cutoff) then [a] else [])
  {
    var tail := if InWindow(a, userId, flightId, cutoff) then [a] else [];
    if log == [] {
      assert [a][1..] == [];
      assert RecentAttempts([a], userId, flightId, cutoff) == tail + RecentAttempts([], userId, flightId, cutoff);
    } else {
      var head := if InWindow(log[0], userId, flightId, cutoff) then [log[0]] else [];
      var rest := RecentAttempts(log[1..], userId, flightId, cutoff);
      assert (log + [a])[0] == log[0] && (log + [a])[1..] == log[1..] + [a];
      assert RecentAttempts(log + [a], userId, flightId, cutoff)
          == head + RecentAttempts(log[1..] + [a], userId, flightId, cutoff);
      RecentAfterAppend(log[1..], a, userId, flightId, cutoff);
      assert RecentAttempts(log, userId, flightId, cutoff) == head + rest;
      assert head + (rest + tail) == (head + rest) + tail;
    }
  }

  /** An attempt counts towards the threshold iff it belongs to the pair and is at most five minutes old. */
  lemma RecordCountsIff(log: seq<Attempt>, a: Attempt, userId: string, flightId: string, now: int)
    ensures RecentCount(log + [a], userId, flightId, now)
         == RecentCount(log, userId, flightId, now)
            + (if a.userId == userId && a.flightId == flightId && a.attemptTime >= now - PriceIncreaseWindow
               then 1 else 0)
  {
    RecentAfterAppend(log, a, userId, flightId, now - PriceIncreaseWindow);
  }

  /** The attempts that the TTL index still keeps at instant `t`. */
  function Reaped(log: seq<Attempt>, t: int): seq<Attempt> {
    if log == [] then []
    else (if log[0].attemptTime + AttemptRetention >= t then [log[0]] else []) + Reaped(log[1..], t)
  }

  /** The index keeps exactly the attempts younger than the retention period. */
  lemma {:induction false} ReapedMembers(log: seq<Attempt>, t: int)
    ensures forall a :: a in Reaped(log, t) <==> a in log && a.attemptTime + AttemptRetention >= t
  {
    if log != [] {
      ReapedMembers(log[1..], t);
      assert log == [log[0]] + log[1..];
    }
  }

  /**
   * Expiry never changes a count: whatever the TTL index removed by instant
   * `t <= now` is older than the five-minute window at `now`.
   */
  lemma {:induction false} ReapingKeepsRecent(log: seq<Attempt>, t: int, userId: string, flightId: string, now: int)
    requires t <= now
    ensures RecentAttempts(Reaped(log, t), userId, flightId, now - PriceIncreaseWindow)
         == RecentAttempts(log, userId, flightId, now - PriceIncreaseWindow)
  {
    if log != [] {
      ReapingKeepsRecent(log[1..], t, userId, flightId, now);
      var head := if log[0].attemptTime + AttemptRetention >= t then [log[0]] else [];
      assert Reaped(log, t) == head + Reaped(log[1..], t);
      if head == [] {
        assert !InWindow(log[0], userId, flightId, now - PriceIncreaseWindow);
        assert Reaped(log, t) == Reaped(log[1..], t);
      } else {
        assert (head + Reaped(log[1..], t))[0] == log[0];
        assert (head + Reaped(log[1..], t))[1..] == Reaped(log[1..], t);
      }
    }
  }

  /** No compounding: an elevated price that is not yet stale is left exactly as it is. */
  lemma ElevatedPriceUnchanged(f: Flight, recent: nat, now: int)
    requires ValidFlight(f)
    requires f.currentPrice != f.basePrice && now - f.lastPriceUpdate < PriceResetWindow
    ensures Evaluate(f, recent, now) == f
  {
  }

  /** Below the threshold the price is only ever reset, never raised. */
  lemma BelowThresholdNoIncrease(f: Flight, recent: nat, now: int)
    requires ValidFlight(f) && recent < AttemptsThreshold
    ensures Evaluate(f, recent, now) == if ResetDue(f, now) then ResetToBase(f, now) else f
  {
  }

  /**
   * Reset before increase: a stale, elevated flight with at least three recent
   * attempts ends at the raised base price with a fresh timestamp.
   */
  lemma StaleElevatedBusyFlight(f: Flight, recent: nat, now: int)
    requires ValidFlight(f)
    requires ResetDue(f, now) && recent >= AttemptsThreshold
    ensures Evaluate(f, recent, now) == f.(currentPrice := Raised(f.basePrice), lastPriceUpdate := now)
  {
  }

  /** A flight at base price with at least three recent attempts is raised by exactly 10%. */
  lemma ThresholdRaisesBase(f: Flight, recent: nat, now: int)
    requires ValidFlight(f) && f.currentPrice == f.basePrice && recent >= AttemptsThreshold
    ensures Evaluate(f, recent, now) == f.(currentPrice := Raised(f.basePrice), lastPriceUpdate := now)
  {
  }

  /** A price is "regular" when it is the base price or the once-raised base price. */
  predicate RegularPrice(f: Flight) {
    f.basePrice >= 0 && (f.currentPrice == f.basePrice || f.currentPrice == Raised(f.basePrice))
  }

  /** One evaluation `(recent attempts, instant)` after another. */
  function EvaluateAll(f: Flight, steps: seq<(nat, int)>): (r: Flight)
    requires ValidFlight(f)
    ensures ValidFlight(r) && r.basePrice == f.basePrice
    decreases |steps|
  {
    if steps == [] then f else EvaluateAll(Evaluate(f, steps[0].0, steps[0].1), steps[1..])
  }

  /**
   * Starting from a regular price, no sequence of evaluations reaches any
   * other value than the base price or the once-raised base price.
   */
  lemma {:induction false} RegularPriceInvariant(f: Flight, steps: seq<(nat, int)>)
    requires ValidFlight(f) && RegularPrice(f)
    ensures RegularPrice(EvaluateAll(f, steps))
    decreases |steps|
  {
    if steps != [] {
      var g := Evaluate(f, steps[0].0, steps[0].1);
      assert RegularPrice(g);
      RegularPriceInvariant(g, steps[1..]);
    }
  }

  /**
   * Three attempts within five minutes on a flight at base price: the
   * evaluation after the third raises it; a fourth attempt before the reset
   * window has passed leaves it raised, not raised again.
   */
  lemma ThirdAttemptRaisesFourthDoesNot(
    log: seq<Attempt>, f: Flight, userId: string, now: int, later: int)
    requires ValidFlight(f) && f.currentPrice == f.basePrice && f.basePrice >= 5
    requires RecentCount(log, userId, f.flightId, now) == 2
    requires now <= later < now + PriceResetWindow
    ensures var a3 := Attempt(userId, f.flightId, f.currentPrice, now);
            var g := Evaluate(f, RecentCount(log + [a3], userId, f.flightId, now), now);
            g.currentPrice == Raised(f.basePrice) > f.basePrice
            && var a4 := Attempt(userId, f.flightId, g.currentPrice, later);
               Evaluate(g, RecentCount(log + [a3, a4], userId, f.flightId, later), later) == g
  {
    var a3 := Attempt(userId, f.flightId, f.currentPrice, now);
    RecordCountsIff(log, a3, userId, f.flightId, now);
    var g := Evaluate(f, RecentCount(log + [a3], userId, f.flightId, now), now);
    ThresholdRaisesBase(f, 3, now);
    ElevatedPriceUnchanged(g, RecentCount(log + [a3, Attempt(userId, f.flightId, g.currentPrice, later)], userId, f.flightId, later), later);
  }
}
