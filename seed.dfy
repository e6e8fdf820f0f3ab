/**
 * `seedFlights` of `backend/services/flightService.js`: when the `flights`
 * collection holds fewer than 20 documents, generate the demo flights with
 * the seeding options, keep the first 20 and hand them to an ordered
 * `insertMany`, which stops at the first document whose `flight_id` is
 * already taken (the unique index) and keeps the documents inserted before it.
 */
module Seed {
  import opened Models
  import opened Seeding

  /** What `seedFlights` reports. */
  datatype SeedOutcome =
    | AlreadySeeded              // `success: false`, enough flights exist
    | Seeded(count: nat)         // `success: true`, `count` flights inserted
    | SeedFailed(inserted: nat)  // `insertMany` threw after inserting `inserted` documents

  /** The effect of an ordered `insertMany`: the new collection, how many went in, and whether all did. */
  datatype Insertion = Insertion(flights: map<string, Flight>, inserted: nat, complete: bool)

  /** The identifiers of a list of flights. */
  function Ids(batch: seq<Flight>): set<string> {
    set k | 0 <= k < |batch| :: batch[k].flightId
  }

  /** No flight of `batch` collides with `m` or with another flight of `batch`. */
  predicate FreshIds(m: map<string, Flight>, batch: seq<Flight>) {
    (forall k | 0 <= k < |batch| :: batch[k].flightId !in m)
    && (forall j, k | 0 <= j < k < |batch| :: batch[j].flightId != batch[k].flightId)
  }

  /** Every flight is filed under its own identifier and respects the schema. */
  predicate WellFiled(m: map<string, Flight>) {
    forall id | id in m :: m[id].flightId == id && ValidFlight(m[id])
  }

  /** Ordered `insertMany` of `batch` into the collection `m`, keyed by `flight_id`. */
  function InsertMany(m: map<string, Flight>, batch: seq<Flight>): (r: Insertion)
    ensures r.inserted <= |batch|
    ensures r.complete <==> r.inserted == |batch|
    decreases |batch|
  {
    if batch == [] then Insertion(m, 0, true)
    else if batch[0].flightId in m then Insertion(m, 0, false)
    else
      var rest := InsertMany(m[batch[0].flightId := batch[0]], batch[1..]);
      Insertion(rest.flights, rest.inserted + 1, rest.complete)
  }

  /** `insertMany` leaves every document that was already there untouched. */
  lemma {:induction false} InsertManyKeeps(m: map<string, Flight>, batch: seq<Flight>)
    ensures forall id | id in m :: id in InsertMany(m, batch).flights && InsertMany(m, batch).flights[id] == m[id]
    decreases |batch|
  {
    if batch != [] && batch[0].flightId !in m {
      InsertManyKeeps(m[batch[0].flightId := batch[0]], batch[1..]);
    }
  }

  /** Each of the first `inserted` flights ends up filed under its own id. */
  lemma {:induction false} InsertManyFiles(m: map<string, Flight>, batch: seq<Flight>)
    ensures forall k | 0 <= k < InsertMany(m, batch).inserted ::
      batch[k].flightId in InsertMany(m, batch).flights && InsertMany(m, batch).flights[batch[k].flightId] == batch[k]
    decreases |batch|
  {
    if batch != [] && batch[0].flightId !in m {
      var f := batch[0];
      var m1 := m[f.flightId := f];
      var rest := InsertMany(m1, batch[1..]);
      assert InsertMany(m, batch) == Insertion(rest.flights, rest.inserted + 1, rest.complete);
      InsertManyKeeps(m1, batch[1..]);
      InsertManyFiles(m1, batch[1..]);
      forall k | 0 <= k < rest.inserted + 1
        ensures batch[k].flightId in rest.flights && rest.flights[batch[k].flightId] == batch[k]
      {
        if k > 0 {
          assert batch[k] == batch[1..][k - 1];
        }
      }
    }
  }

  /** `insertMany` grows the collection by exactly the number of flights it inserted. */
  lemma {:induction false} InsertManySize(m: map<string, Flight>, batch: seq<Flight>)
    ensures |InsertMany(m, batch).flights| == |m| + InsertMany(m, batch).inserted
    decreases |batch|
  {
    if batch != [] && batch[0].flightId !in m {
      var m1 := m[batch[0].flightId := batch[0]];
      assert m1.Keys == m.Keys + {batch[0].flightId};
      InsertManySize(m1, batch[1..]);
    }
  }

  /** The ids of a list are those of its head and of its tail. */
  lemma IdsCons(f: Flight, rest: seq<Flight>)
    ensures Ids([f] + rest) == {f.flightId} + Ids(rest)
  {
    var s := [f] + rest;
    forall id | id in Ids(s) ensures id in {f.flightId} + Ids(rest) {
      var k :| 0 <= k < |s| && s[k].flightId == id;
      if k > 0 {
        assert s[k] == rest[k - 1];
      }
    }
    forall id | id in Ids(rest) ensures id in Ids(s) {
      var k :| 0 <= k < |rest| && rest[k].flightId == id;
      assert s[k + 1] == rest[k];
    }
    assert s[0] == f;
  }

  /** The ids of the collection after `insertMany` are the old ones plus those of the inserted prefix. */
  lemma {:induction false} InsertManyKeys(m: map<string, Flight>, batch: seq<Flight>)
    ensures InsertMany(m, batch).flights.Keys == m.Keys + Ids(batch[..InsertMany(m, batch).inserted])
    decreases |batch|
  {
    if batch == [] || batch[0].flightId in m {
      assert batch[..0] == [];
    } else {
      var f := batch[0];
      var m1 := m[f.flightId := f];
      var rest := InsertMany(m1, batch[1..]);
      InsertManyKeys(m1, batch[1..]);
      var n := rest.inserted;
      assert InsertMany(m, batch) == Insertion(rest.flights, n + 1, rest.complete);
      assert batch[..n + 1] == [f] + batch[1..][..n];
      IdsCons(f, batch[1..][..n]);
    }
  }

  /** `insertMany` goes through to the end exactly when no id of the batch is taken, before or by the batch itself. */
  lemma {:induction false} InsertManyCompleteIff(m: map<string, Flight>, batch: seq<Flight>)
    ensures InsertMany(m, batch).complete <==> FreshIds(m, batch)
    decreases |batch|
  {
    if batch != [] {
      var f := batch[0];
      if f.flightId !in m {
        var m1 := m[f.flightId := f];
        InsertManyCompleteIff(m1, batch[1..]);
        if FreshIds(m, batch) {
          forall k | 0 <= k < |batch[1..]| ensures batch[1..][k].flightId !in m1 {
            assert batch[1..][k] == batch[k + 1];
          }
          forall j, k | 0 <= j < k < |batch[1..]| ensures batch[1..][j].flightId != batch[1..][k].flightId {
            assert batch[1..][j] == batch[j + 1] && batch[1..][k] == batch[k + 1];
          }
        }
        if FreshIds(m1, batch[1..]) {
          forall k | 0 <= k < |batch| ensures batch[k].flightId !in m {
            if k > 0 {
              assert batch[k] == batch[1..][k - 1];
            }
          }
          forall j, k | 0 <= j < k < |batch| ensures batch[j].flightId != batch[k].flightId {
            assert batch[k] == batch[1..][k - 1];
            if j > 0 {
              assert batch[j] == batch[1..][j - 1];
            }
          }
        }
      } else {
        assert !FreshIds(m, batch) by {
          assert batch[0].flightId in m;
        }
      }
    }
  }

  /** Inserting schema-valid flights keeps every document filed under its own id. */
  lemma {:induction false} InsertManyKeepsFiled(m: map<string, Flight>, batch: seq<Flight>)
    requires WellFiled(m)
    requires forall k | 0 <= k < |batch| :: ValidFlight(batch[k])
    ensures WellFiled(InsertMany(m, batch).flights)
    decreases |batch|
  {
    if batch != [] && batch[0].flightId !in m {
      var m1 := m[batch[0].flightId := batch[0]];
      forall k | 0 <= k < |batch[1..]| ensures ValidFlight(batch[1..][k]) {
        assert batch[1..][k] == batch[k + 1];
      }
      InsertManyKeepsFiled(m1, batch[1..]);
    }
  }

  /**
   * The imperative `insertMany`: walk the batch in order, stop at the first
   * taken id, otherwise file each flight under its id.
   */
  method InsertInto(store: FlightStore, batch: seq<Flight>) returns (inserted: nat, complete: bool)
    modifies store
    ensures store.flights == InsertMany(old(store.flights), batch).flights
    ensures inserted == InsertMany(old(store.flights), batch).inserted
    ensures complete == InsertMany(old(store.flights), batch).complete
  {
    var i := 0;
    while i < |batch|
      invariant 0 <= i <= |batch|
      invariant InsertMany(old(store.flights), batch)
        == var r := InsertMany(store.flights, batch[i..]); Insertion(r.flights, r.inserted + i, r.complete)
    {
      var f := batch[i];
      assert batch[i..][0] == f && batch[i..][1..] == batch[i + 1..];
      if f.flightId in store.flights {
        return i, false;
      }
      store.flights := store.flights[f.flightId := f];
      i := i + 1;
    }
    assert batch[i..] == [];
    return i, true;
  }

  /** The 20 flights `seedFlights` hands to `insertMany`: the generator's output cut at the target. */
  function SeedBatch(now: int): (batch: seq<Flight>)
    ensures |batch| == SeedTarget
  {
    SeedGenerationOvershoots(now);
    SampleFlights(SeedCities, DefaultAirlines, SeedPerDeparture, SeedMinuteStep, SeedTarget, now)[..SeedTarget]
  }

  /** The seeding step on the collection `m`: the new collection and the report. */
  function SeedSpec(m: map<string, Flight>, now: int): (map<string, Flight>, SeedOutcome) {
    if |m| >= SeedTarget then (m, AlreadySeeded)
    else
      var r := InsertMany(m, SeedBatch(now));
      (r.flights, if r.complete then Seeded(r.inserted) else SeedFailed(r.inserted))
  }

  /** `seedFlights` on the `flights` collection. */
  method SeedFlights(store: FlightStore, now: int) returns (outcome: SeedOutcome)
    modifies store
    ensures (store.flights, outcome) == SeedSpec(old(store.flights), now)
  {
    if |store.flights| >= SeedTarget {
      return AlreadySeeded;
    }
    var sample := GenerateSampleFlights(SeedCities, DefaultAirlines, SeedPerDeparture, SeedMinuteStep, SeedTarget, now);
    SeedGenerationOvershoots(now);
    var toInsert := sample[..SeedTarget];
    var inserted, complete := InsertInto(store, toInsert);
    outcome := if complete then Seeded(inserted) else SeedFailed(inserted);
  }

  /** The default airline names contain no digit, so their initials cannot blur into the counter. */
  lemma DefaultAirlinesDigitFree()
    ensures forall a | a in DefaultAirlines :: DigitFree(a)
  {
    forall a | a in DefaultAirlines ensures DigitFree(a) {
      forall k | 0 <= k < |a| ensures !IsDigit(a[k]) {
      }
    }
  }

  /** Any generated list holds schema-valid flights with pairwise distinct ids. */
  lemma SampleFlightsStorable(cities: seq<string>, airlines: seq<string>, perDeparture: nat, step: int, cap: nat,
                              now: int)
    requires |airlines| > 0 && step >= 1
    requires forall a | a in airlines :: DigitFree(a)
    ensures forall k | 0 <= k < |SampleFlights(cities, airlines, perDeparture, step, cap, now)| ::
      ValidFlight(SampleFlights(cities, airlines, perDeparture, step, cap, now)[k])
    ensures forall j, k | 0 <= j < k < |SampleFlights(cities, airlines, perDeparture, step, cap, now)| ::
      SampleFlights(cities, airlines, perDeparture, step, cap, now)[j].flightId
      != SampleFlights(cities, airlines, perDeparture, step, cap, now)[k].flightId
  {
    SampleIdsUnique(cities, airlines, perDeparture, step, cap, now);
    SampleFlightsGood(cities, airlines, perDeparture, step, cap, now);
  }

  /** The seed batch: 20 schema-valid flights with pairwise distinct ids. */
  lemma SeedBatchGood(now: int)
    ensures forall k | 0 <= k < |SeedBatch(now)| :: ValidFlight(SeedBatch(now)[k])
    ensures forall j, k | 0 <= j < k < |SeedBatch(now)| :: SeedBatch(now)[j].flightId != SeedBatch(now)[k].flightId
  {
    var sample := SampleFlights(SeedCities, DefaultAirlines, SeedPerDeparture, SeedMinuteStep, SeedTarget, now);
    var batch := SeedBatch(now);
    SeedGenerationOvershoots(now);
    assert batch == sample[..SeedTarget];
    DefaultAirlinesDigitFree();
    SampleFlightsStorable(SeedCities, DefaultAirlines, SeedPerDeparture, SeedMinuteStep, SeedTarget, now);
    forall k | 0 <= k < |batch| ensures ValidFlight(batch[k]) {
      assert batch[k] == sample[k];
    }
    forall j, k | 0 <= j < k < |batch| ensures batch[j].flightId != batch[k].flightId {
      assert batch[j] == sample[j] && batch[k] == sample[k];
    }
  }

  /**
   * The cap: nothing changes once 20 flights exist; otherwise at most 20 are
   * added, the flights already there keep their documents, and a report of
   * success means all 20 went in.
   */
  lemma SeedCap(m: map<string, Flight>, now: int)
    ensures |m| >= SeedTarget ==> SeedSpec(m, now) == (m, AlreadySeeded)
    ensures |m| < SeedTarget ==> |m| <= |SeedSpec(m, now).0| <= |m| + SeedTarget
    ensures forall id | id in m :: id in SeedSpec(m, now).0 && SeedSpec(m, now).0[id] == m[id]
    ensures SeedSpec(m, now).1.Seeded? ==>
              SeedSpec(m, now).1.count == SeedTarget && |SeedSpec(m, now).0| == |m| + SeedTarget
    ensures SeedSpec(m, now).1.SeedFailed? ==> |SeedSpec(m, now).0| == |m| + SeedSpec(m, now).1.inserted < |m| + SeedTarget
  {
    if |m| < SeedTarget {
      InsertManyKeeps(m, SeedBatch(now));
      InsertManySize(m, SeedBatch(now));
    }
  }

  /** Below the cap, the seeding succeeds with all 20 flights exactly when none of their ids is taken. */
  lemma SeedSucceedsIff(m: map<string, Flight>, now: int)
    requires |m| < SeedTarget
    ensures SeedSpec(m, now).1 == Seeded(SeedTarget)
      <==> forall k | 0 <= k < |SeedBatch(now)| :: SeedBatch(now)[k].flightId !in m
  {
    SeedBatchGood(now);
    InsertManyCompleteIff(m, SeedBatch(now));
  }

  /** Seeding keeps the collection well filed. */
  lemma SeedKeepsFiled(m: map<string, Flight>, now: int)
    requires WellFiled(m)
    ensures WellFiled(SeedSpec(m, now).0)
  {
    if |m| < SeedTarget {
      SeedBatchGood(now);
      InsertManyKeepsFiled(m, SeedBatch(now));
    }
  }
}
