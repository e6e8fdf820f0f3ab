/**
 * The demo flight generator and the seeding step of
 * `backend/services/flightService.js`.
 *
 * `generateSampleFlights` builds the day's `HH:MM` slots, then for each
 * departure city emits up to `flightsPerDeparture` flights that cycle through
 * the other cities, the slots and the airlines, with integer price and
 * duration formulas and ids made of the airline's initials and a running
 * counter. Prices are in paise (1 rupee = 100 paise); the generator works in
 * whole rupees.
 */
module Seeding {
  import opened Wrappers
  import opened Models

  /** The default departure cities of `generateSampleFlights`. */
  const DefaultCities: seq<string> :=
    ["Delhi", "Mumbai", "Bangalore", "Hyderabad", "Chennai", "Kolkata", "Pune", "Ahmedabad"]
  /** The default airlines of `generateSampleFlights`; `seedFlights` keeps them. */
  const DefaultAirlines: seq<string> := ["Air India", "SpiceJet", "Vistara", "IndiGo", "Akasa", "GoAir"]
  /** The departure cities `seedFlights` passes. */
  const SeedCities: seq<string> := ["Delhi", "Mumbai", "Bangalore", "Hyderabad", "Chennai"]
  /** `seedFlights`: the target count, the flights per departure city and the slot step in minutes. */
  const SeedTarget: nat := 20
  const SeedPerDeparture: nat := 5
  const SeedMinuteStep: int := 15
  /** The first value of the id counter. */
  const FirstCounter: nat := 1000
  const MinutesPerDay: int := 24 * 60

  // ---------------------------------------------------------------------------
  // Clock slots
  // ---------------------------------------------------------------------------

  function DigitChar(n: int): char
    requires 0 <= n < 10
  {
    ('0' as int + n) as char
  }

  function DigitValue(c: char): int {
    c as int - '0' as int
  }

  predicate IsDigit(c: char) {
    '0' <= c <= '9'
  }

  /** `String(n).padStart(2, '0')` for a number below 100. */
  function Pad2(n: int): string
    requires 0 <= n < 100
  {
    [DigitChar(n / 10), DigitChar(n % 10)]
  }

  /** Two digits whose value is `n`. */
  lemma Pad2Digits(n: int)
    requires 0 <= n < 100
    ensures |Pad2(n)| == 2 && IsDigit(Pad2(n)[0]) && IsDigit(Pad2(n)[1])
    ensures DigitValue(Pad2(n)[0]) * 10 + DigitValue(Pad2(n)[1]) == n
  {
  }

  /** The `HH:MM` text of a time of day. */
  function Hhmm(h: int, m: int): string
    requires 0 <= h < 100 && 0 <= m < 100
  {
    Pad2(h) + ":" + Pad2(m)
  }

  /** The minutes of day of an `HH:MM` text, as `split(':').map(Number)` reads a slot. */
  function ClockMinutes(s: string): int {
    if |s| < 5 then 0
    else (DigitValue(s[0]) * 10 + DigitValue(s[1])) * 60 + DigitValue(s[3]) * 10 + DigitValue(s[4])
  }

  /** Reading back a formatted time gives the time. */
  lemma ClockMinutesOfHhmm(h: int, m: int)
    requires 0 <= h < 100 && 0 <= m < 100
    ensures ClockMinutes(Hhmm(h, m)) == h * 60 + m
  {
    var s := Hhmm(h, m);
    Pad2Digits(h);
    Pad2Digits(m);
    assert s[0..2] == Pad2(h) && s[3..5] == Pad2(m);
    assert s[0] == Pad2(h)[0] && s[1] == Pad2(h)[1] && s[3] == Pad2(m)[0] && s[4] == Pad2(m)[1];
  }

  /** The slots of hour `h` from minute `m` on: `m, m + step, ...` while below 60. */
  function HourSlotsFrom(step: int, h: int, m: nat): (slots: seq<string>)
    requires step >= 1 && 0 <= h < 24
    ensures m < 60 ==> |slots| >= 1
    decreases 60 - m
  {
    if m >= 60 then [] else [Hhmm(h, m)] + HourSlotsFrom(step, h, m + step)
  }

  /** The slots of the first `h` hours of the day. */
  function SlotsUpTo(step: int, h: int): (slots: seq<string>)
    requires step >= 1 && 0 <= h <= 24
    ensures |slots| >= h
  {
    if h == 0 then [] else SlotsUpTo(step, h - 1) + HourSlotsFrom(step, h - 1, 0)
  }

  /** The time slots of a day, hour by hour, `step` minutes apart. */
  function Slots(step: int): (slots: seq<string>)
    requires step >= 1
    ensures |slots| >= 24
  {
    SlotsUpTo(step, 24)
  }

  /** Pushing the slot of minute `m` moves it from the pending part of the hour to the list. */
  lemma PushSlot(slots: seq<string>, step: int, h: int, m: nat)
    requires step >= 1 && 0 <= h < 24 && m < 60
    ensures (slots + [Hhmm(h, m)]) + HourSlotsFrom(step, h, m + step) == slots + HourSlotsFrom(step, h, m)
  {
    assert HourSlotsFrom(step, h, m) == [Hhmm(h, m)] + HourSlotsFrom(step, h, m + step);
  }

  /** The inner slot loop: push the slots of hour `h`, `step` minutes apart. */
  method PushHourSlots(slots0: seq<string>, step: int, h: int) returns (slots: seq<string>)
    requires step >= 1 && 0 <= h < 24
    ensures slots == slots0 + HourSlotsFrom(step, h, 0)
  {
    slots := slots0;
    var m := 0;
    while m < 60
      invariant slots + HourSlotsFrom(step, h, m) == slots0 + HourSlotsFrom(step, h, 0)
      decreases 60 - m
    {
      PushSlot(slots, step, h, m);
      slots := slots + [Hhmm(h, m)];
      m := m + step;
    }
    assert HourSlotsFrom(step, h, m) == [];
    assert slots + [] == slots;
  }

  /** The slot loop of `generateSampleFlights`: every hour of the day in turn. */
  method BuildSlots(step: int) returns (slots: seq<string>)
    requires step >= 1
    ensures slots == Slots(step)
  {
    slots := [];
    for h := 0 to 24
      invariant slots == SlotsUpTo(step, h)
    {
      slots := PushHourSlots(slots, step, h);
    }
  }

  /** The number of steps of `step` that start below `x`: `ceil(x / step)` for `x >= 0`. */
  function CeilSteps(x: int, step: int): nat
    requires step >= 1
    decreases x
  {
    if x <= 0 then 0 else 1 + CeilSteps(x - step, step)
  }

  lemma MulSucc(a: int, b: int)
    ensures (a - 1) * b + b == a * b
  {
  }

  /** One more block of `c` after `h - 1` blocks makes `h` blocks. */
  lemma MulStep(total: int, prev: int, next: int, h: int, c: int)
    requires total == prev + next && prev == (h - 1) * c && next == c
    ensures total == h * c
  {
    MulSucc(h, c);
  }

  /** `CeilSteps(x, step)` is the ceiling of `x / step`: the least `k` with `x <= k * step`. */
  lemma {:induction false} CeilStepsBounds(x: int, step: int)
    requires step >= 1 && x > 0
    ensures (CeilSteps(x, step) - 1) * step < x <= CeilSteps(x, step) * step
    decreases x
  {
    if x > step {
      CeilStepsBounds(x - step, step);
      var k := CeilSteps(x - step, step);
      MulSucc(k, step);
      MulSucc(k + 1, step);
    }
  }

  /** `(k - 1) * step < x <= k * step` pins the ceiling of `x / step` to `k`. */
  lemma {:induction false} CeilStepsOf(x: int, step: int, k: int)
    requires step >= 1 && k >= 1 && (k - 1) * step < x <= k * step
    ensures CeilSteps(x, step) == k
    decreases k
  {
    MulSucc(k, step);
    if k > 1 {
      MulSucc(k - 1, step);
      CeilStepsOf(x - step, step, k - 1);
    }
  }

  /** `x <= k * step` bounds the ceiling of `x / step` by `k`. */
  lemma {:induction false} CeilStepsAtMost(x: int, step: int, k: nat)
    requires step >= 1 && x <= k * step
    ensures CeilSteps(x, step) <= k
    decreases k
  {
    if k > 0 {
      MulSucc(k, step);
      CeilStepsAtMost(x - step, step, k - 1);
    }
  }

  /** The number of slots of an hour from minute `m` on. */
  lemma {:induction false} HourSlotsCount(step: int, h: int, m: nat)
    requires step >= 1 && 0 <= h < 24
    ensures |HourSlotsFrom(step, h, m)| == CeilSteps(60 - m, step)
    decreases 60 - m
  {
    if m < 60 {
      HourSlotsCount(step, h, m + step);
    }
  }

  /** The first `h` hours have `h * ceil(60 / step)` slots; a day has `24 * ceil(60 / step)`. */
  lemma {:induction false} SlotsCount(step: int, h: int)
    requires step >= 1 && 0 <= h <= 24
    ensures |SlotsUpTo(step, h)| == h * CeilSteps(60, step)
  {
    if h > 0 {
      SlotsCount(step, h - 1);
      HourSlotsCount(step, h - 1, 0);
      var before, hour := SlotsUpTo(step, h - 1), HourSlotsFrom(step, h - 1, 0);
      assert |SlotsUpTo(step, h)| == |before| + |hour|;
      MulStep(|SlotsUpTo(step, h)|, |before|, |hour|, h, CeilSteps(60, step));
    }
  }

  /** The times of `slots` ascend strictly and lie in `[lo, hi)`. */
  predicate AscendingWithin(slots: seq<string>, lo: int, hi: int) {
    (forall k | 0 <= k < |slots| :: lo <= ClockMinutes(slots[k]) < hi)
    && (forall j, k | 0 <= j < k < |slots| :: ClockMinutes(slots[j]) < ClockMinutes(slots[k]))
  }

  /** Ascending runs over adjacent ranges concatenate to an ascending run. */
  lemma ConcatAscending(a: seq<string>, b: seq<string>, lo: int, mid: int, hi: int)
    requires lo <= mid <= hi && AscendingWithin(a, lo, mid) && AscendingWithin(b, mid, hi)
    ensures AscendingWithin(a + b, lo, hi)
  {
    var c := a + b;
    forall k | 0 <= k < |c|
      ensures lo <= ClockMinutes(c[k]) < hi
    {
      if k < |a| {
        assert c[k] == a[k];
        assert lo <= ClockMinutes(a[k]) < mid;
      } else {
        assert c[k] == b[k - |a|];
        assert mid <= ClockMinutes(b[k - |a|]) < hi;
      }
    }
    forall j, k | 0 <= j < k < |c|
      ensures ClockMinutes(c[j]) < ClockMinutes(c[k])
    {
      if k < |a| {
        assert c[j] == a[j] && c[k] == a[k];
      } else if j < |a| {
        assert c[j] == a[j] && c[k] == b[k - |a|];
      } else {
        assert c[j] == b[j - |a|] && c[k] == b[k - |a|];
      }
    }
  }

  /** The slots of hour `h` from minute `m` on ascend strictly and stay within that hour. */
  lemma {:induction false} HourSlotsAscending(step: int, h: int, m: nat)
    requires step >= 1 && 0 <= h < 24
    ensures AscendingWithin(HourSlotsFrom(step, h, m), 60 * h + m, 60 * h + 60)
    decreases 60 - m
  {
    if m < 60 {
      HourSlotsAscending(step, h, m + step);
      ClockMinutesOfHhmm(h, m);
      var first := [Hhmm(h, m)];
      assert ClockMinutes(first[0]) == 60 * h + m;
      assert AscendingWithin(first, 60 * h + m, 60 * h + m + 1);
      var rest := HourSlotsFrom(step, h, m + step);
      if m + step < 60 {
        ConcatAscending(first, rest, 60 * h + m, 60 * h + m + 1, 60 * h + 60);
      } else {
        assert rest == [];
        assert first + rest == first;
      }
    }
  }

  /** The slots of the first `h` hours ascend strictly and all fall before hour `h`. */
  lemma {:induction false} SlotsUpToAscending(step: int, h: int)
    requires step >= 1 && 0 <= h <= 24
    ensures AscendingWithin(SlotsUpTo(step, h), 0, 60 * h)
  {
    if h > 0 {
      SlotsUpToAscending(step, h - 1);
      HourSlotsAscending(step, h - 1, 0);
      ConcatAscending(SlotsUpTo(step, h - 1), HourSlotsFrom(step, h - 1, 0), 0, 60 * (h - 1), 60 * h);
    }
  }

  /** The slots are in strictly ascending order of time of day. */
  lemma SlotsAscending(step: int)
    requires step >= 1
    ensures forall k | 0 <= k < |Slots(step)| :: 0 <= ClockMinutes(Slots(step)[k]) < MinutesPerDay
    ensures forall j, k | 0 <= j < k < |Slots(step)| :: ClockMinutes(Slots(step)[j]) < ClockMinutes(Slots(step)[k])
  {
    SlotsUpToAscending(step, 24);
    assert Slots(step) == SlotsUpTo(step, 24);
  }

  // ---------------------------------------------------------------------------
  // Flight ids
  // ---------------------------------------------------------------------------

  /** ASCII `toUpperCase` of one character. */
  function Upper(c: char): char {
    if 'a' <= c <= 'z' then (c as int - 32) as char else c
  }

  /**
   * The first character of every space-separated word, upper-cased; an empty
   * word (two spaces in a row, a leading space) contributes nothing.
   */
  function Initials(s: string, atWordStart: bool): (r: string)
    ensures |r| <= |s|
    ensures forall k | 0 <= k < |r| :: !('a' <= r[k] <= 'z')
  {
    if s == [] then []
    else if s[0] == ' ' then Initials(s[1..], true)
    else if atWordStart then [Upper(s[0])] + Initials(s[1..], false)
    else Initials(s[1..], false)
  }

  /** Initials of a text without digits hold no digit. */
  lemma {:induction false} InitialsDigitFree(s: string, atWordStart: bool)
    requires DigitFree(s)
    ensures DigitFree(Initials(s, atWordStart))
  {
    if s != [] {
      assert DigitFree(s[1..]) by {
        forall k | 0 <= k < |s| - 1 ensures !IsDigit(s[1..][k]) {
          assert s[1..][k] == s[k + 1];
        }
      }
      InitialsDigitFree(s[1..], true);
      InitialsDigitFree(s[1..], false);
    }
  }

  /** `airline.split(' ').map(w => w[0]).join('').toUpperCase().slice(0, 3)`. */
  function AirlineCode(airline: string): (code: string)
    ensures |code| <= 3 && |code| <= |airline|
    ensures forall k | 0 <= k < |code| :: !('a' <= code[k] <= 'z')
  {
    var initials := Initials(airline, true);
    if |initials| <= 3 then initials else initials[..3]
  }

  /** The code of an airline without digits holds no digit. */
  lemma AirlineCodeDigitFree(airline: string)
    requires DigitFree(airline)
    ensures DigitFree(AirlineCode(airline))
  {
    InitialsDigitFree(airline, true);
  }

  /** `String(n)` for a natural number. */
  function Decimal(n: nat): (s: string)
    ensures |s| >= 1
  {
    if n < 10 then [DigitChar(n)] else Decimal(n / 10) + [DigitChar(n % 10)]
  }

  /** The text of a number is all digits. */
  lemma {:induction false} DecimalDigits(n: nat)
    ensures forall k | 0 <= k < |Decimal(n)| :: IsDigit(Decimal(n)[k])
  {
    if n >= 10 {
      DecimalDigits(n / 10);
      var s := Decimal(n);
      assert s == Decimal(n / 10) + [DigitChar(n % 10)];
      forall k | 0 <= k < |s| ensures IsDigit(s[k]) {
        if k < |s| - 1 {
          assert s[k] == Decimal(n / 10)[k];
        }
      }
    }
  }

  /** The value of a text of digits. */
  function DecimalValue(s: string): int {
    if s == [] then 0 else DecimalValue(s[..|s| - 1]) * 10 + DigitValue(s[|s| - 1])
  }

  /** Reading back the text of a number gives the number. */
  lemma {:induction false} DecimalRoundTrip(n: nat)
    ensures DecimalValue(Decimal(n)) == n
  {
    if n >= 10 {
      var s := Decimal(n);
      assert s[..|s| - 1] == Decimal(n / 10);
      DecimalRoundTrip(n / 10);
    }
  }

  /** `flight_id`: the airline code followed by the counter. */
  function FlightId(airline: string, counter: nat): string {
    AirlineCode(airline) + Decimal(counter)
  }

  predicate DigitFree(s: string) {
    forall k | 0 <= k < |s| :: !IsDigit(s[k])
  }

  /** For airlines without digits, different counters give different ids. */
  lemma FlightIdsDistinct(a1: string, a2: string, c1: nat, c2: nat)
    requires DigitFree(a1) && DigitFree(a2) && c1 != c2
    ensures FlightId(a1, c1) != FlightId(a2, c2)
  {
    var p1, p2 := AirlineCode(a1), AirlineCode(a2);
    var d1, d2 := Decimal(c1), Decimal(c2);
    var s1, s2 := FlightId(a1, c1), FlightId(a2, c2);
    AirlineCodeDigitFree(a1);
    AirlineCodeDigitFree(a2);
    DecimalDigits(c1);
    DecimalDigits(c2);
    if |p1| < |p2| {
      assert s1[|p1|] == d1[0] && s2[|p1|] == p2[|p1|];
      assert s1[|p1|] != s2[|p1|];
    } else if |p1| > |p2| {
      assert s2[|p2|] == d2[0] && s1[|p2|] == p1[|p2|];
      assert s1[|p2|] != s2[|p2|];
    } else {
      DecimalRoundTrip(c1);
      DecimalRoundTrip(c2);
      assert s1[|p1|..] == d1 != d2 == s2[|p1|..];
    }
  }

  // ---------------------------------------------------------------------------
  // One generated flight
  // ---------------------------------------------------------------------------

  /** `departureCities.filter(c => c !== depCity)`. */
  function OtherCities(cities: seq<string>, dep: string): seq<string> {
    if cities == [] then []
    else if cities[0] == dep then OtherCities(cities[1..], dep)
    else [cities[0]] + OtherCities(cities[1..], dep)
  }

  /** The other cities are exactly the cities different from `dep`. */
  lemma {:induction false} OtherCitiesSpec(cities: seq<string>, dep: string)
    ensures forall c | c in OtherCities(cities, dep) :: c != dep && c in cities
    ensures forall c | c in cities && c != dep :: c in OtherCities(cities, dep)
  {
    if cities != [] {
      OtherCitiesSpec(cities[1..], dep);
      assert cities == [cities[0]] + cities[1..];
    }
  }

  /** The duration of the `i`-th flight of a city, in minutes. */
  function Duration(i: nat): (d: int)
    ensures 60 <= d <= 239
  {
    60 + (i * 37) % 180
  }

  /** The base price in rupees of the `i`-th flight of city `d`. */
  function BaseRupees(d: nat, i: nat): (b: int)
    ensures 2000 <= b <= 3000
  {
    2000 + (d * 7 + i * 13) % 1001
  }

  /** `Math.round(base * (1 + (i % 10) * 0.02))`, computed exactly: half-way values round up. */
  function CurrentRupees(base: int, i: nat): (c: int)
    requires base >= 0
    ensures base <= c
  {
    (base * (50 + i % 10) + 25) / 50
  }

  /** `CurrentRupees` is the nearest whole rupee to `base * (1 + (i % 10) * 0.02)`, half-way rounding up. */
  lemma CurrentRupeesRounds(base: int, i: nat)
    requires base >= 0
    ensures var exact := base * (50 + i % 10);
      50 * CurrentRupees(base, i) <= exact + 25 < 50 * CurrentRupees(base, i) + 50
  {
  }

  /** The `n`-th element of `s` taken round-robin. */
  function Cycle<T>(s: seq<T>, n: nat): (x: T)
    requires |s| > 0
    ensures x in s
  {
    s[n % |s|]
  }

  /**
   * The arrival city of the `i`-th flight of city `d`: the other cities in
   * turn. With a single city there is none and the source's `undefined` is
   * the empty string here.
   */
  function ArrivalCity(cities: seq<string>, d: nat, i: nat): (c: string)
    requires d < |cities|
    ensures c != cities[d] || OtherCities(cities, cities[d]) == []
    ensures c in cities || OtherCities(cities, cities[d]) == []
  {
    var others := OtherCities(cities, cities[d]);
    OtherCitiesSpec(cities, cities[d]);
    if |others| == 0 then "" else Cycle(others, i)
  }

  /** The departure slot of the `i`-th flight of city `d`: the slots in turn from `d`. */
  function DepartureSlot(step: int, d: nat, i: nat): (t: string)
    requires step >= 1
    ensures t in Slots(step)
  {
    var slots := Slots(step);
    slots[(d % |slots| + i) % |slots|]
  }

  /** The arrival time `duration` minutes after `departure`, wrapping at midnight. */
  function ArrivalTime(departure: string, duration: int): (t: string)
    ensures ClockMinutes(t) == (ClockMinutes(departure) + duration) % MinutesPerDay
  {
    var minutes := (ClockMinutes(departure) + duration) % MinutesPerDay;
    ClockMinutesOfHhmm(minutes / 60, minutes % 60);
    Hhmm(minutes / 60, minutes % 60)
  }

  /**
   * The `i`-th flight of departure city `d`, with `counter` flights generated
   * before it.
   */
  function SampleFlight(cities: seq<string>, airlines: seq<string>, step: int, d: nat, i: nat, counter: nat, now: int)
    : Flight
    requires d < |cities| && |airlines| > 0 && step >= 1
  {
    var departureTime := DepartureSlot(step, d, i);
    var airline := Cycle(airlines, d + i);
    var base := BaseRupees(d, i);
    Flight(FlightId(airline, FirstCounter + counter), airline, cities[d], ArrivalCity(cities, d, i),
           departureTime, ArrivalTime(departureTime, Duration(i)),
           base * 100, CurrentRupees(base, i) * 100, now)
  }

  // ---------------------------------------------------------------------------
  // The generation
  // ---------------------------------------------------------------------------

  /** What the generator promises of the flight with running index `k`. */
  predicate GoodSample(cities: seq<string>, airlines: seq<string>, step: int, now: int, k: nat, f: Flight)
    requires step >= 1
  {
    f.departureCity in cities && f.airline in airlines
    && f.flightId == FlightId(f.airline, FirstCounter + k)
    && (f.arrivalCity != f.departureCity || OtherCities(cities, f.departureCity) == [])
    && (f.arrivalCity in cities || OtherCities(cities, f.departureCity) == [])
    && ValidFlight(f) && 200000 <= f.basePrice <= 300000 && f.basePrice <= f.currentPrice
    && f.departureTime in Slots(step) && f.lastPriceUpdate == now
  }

  /**
   * How many flights city `d` emits when `count` were emitted before it: all
   * `perDeparture` without a cap (`totalFlights` absent or 0); otherwise the
   * city stops right after the push that reaches the cap, so once the cap is
   * reached every later city still emits one flight.
   */
  function RowLength(perDeparture: nat, cap: nat, count: nat): (n: nat)
    ensures n <= perDeparture
  {
    if cap == 0 then perDeparture
    else if count >= cap then (if perDeparture == 0 then 0 else 1)
    else if perDeparture <= cap - count then perDeparture
    else cap - count
  }

  lemma AppendAssoc<T>(a: seq<T>, b: seq<T>, c: seq<T>)
    ensures (a + b) + c == a + (b + c)
  {
  }

  /** The push that reaches the cap is the last one of its row. */
  lemma RowLengthAtCap(perDeparture: nat, cap: nat, count: nat, i: nat)
    requires 1 <= i <= perDeparture && cap != 0 && count + i >= cap
    requires count + i - 1 < cap || i == 1
    ensures i == RowLength(perDeparture, cap, count)
  {
  }

  /** How many flights the first `d` departure cities emit. */
  function GeneratedCount(d: nat, perDeparture: nat, cap: nat): nat {
    if d == 0 then 0
    else
      var before := GeneratedCount(d - 1, perDeparture, cap);
      before + RowLength(perDeparture, cap, before)
  }

  /** The samples of departure city `d`, indexed by their position in the row. */
  function SampleRow(cities: seq<string>, airlines: seq<string>, step: int, d: nat, counter: nat, now: int)
    : int --> Flight
    requires d < |cities| && |airlines| > 0 && step >= 1
  {
    i requires 0 <= i => SampleFlight(cities, airlines, step, d, i, counter + i, now)
  }

  /** The first `len` flights of departure city `d`, the first with running index `counter`. */
  function CityFlights(cities: seq<string>, airlines: seq<string>, step: int, d: nat, len: nat, counter: nat, now: int)
    : (flights: seq<Flight>)
    requires d < |cities| && |airlines| > 0 && step >= 1
  {
    seq(len, SampleRow(cities, airlines, step, d, counter, now))
  }

  lemma SeqSnoc<T>(len: nat, f: int --> T)
    requires forall i | 0 <= i <= len :: f.requires(i)
    ensures seq(len + 1, f) == seq(len, f) + [f(len)]
  {
  }

  lemma SeqAt<T>(len: nat, f: int --> T, j: nat)
    requires j < len && forall i | 0 <= i < len :: f.requires(i)
    ensures seq(len, f)[j] == f(j)
  {
  }

  /** One more push extends the row by the next sample. */
  lemma CityFlightsSnoc(cities: seq<string>, airlines: seq<string>, step: int, d: nat, len: nat, counter: nat, now: int)
    requires d < |cities| && |airlines| > 0 && step >= 1
    ensures CityFlights(cities, airlines, step, d, len + 1, counter, now)
         == CityFlights(cities, airlines, step, d, len, counter, now)
            + [SampleFlight(cities, airlines, step, d, len, counter + len, now)]
  {
    SeqSnoc(len, SampleRow(cities, airlines, step, d, counter, now));
  }

  /** What the first `d` departure cities emit. */
  function SampleFlightsUpTo(cities: seq<string>, airlines: seq<string>, perDeparture: nat, step: int, cap: nat,
                             now: int, d: nat)
    : (flights: seq<Flight>)
    requires d <= |cities| && |airlines| > 0 && step >= 1
    ensures |flights| == GeneratedCount(d, perDeparture, cap)
  {
    if d == 0 then []
    else
      var before := SampleFlightsUpTo(cities, airlines, perDeparture, step, cap, now, d - 1);
      before + CityFlights(cities, airlines, step, d - 1, RowLength(perDeparture, cap, |before|), |before|, now)
  }

  /** What `generateSampleFlights` returns. */
  function SampleFlights(cities: seq<string>, airlines: seq<string>, perDeparture: nat, step: int, cap: nat, now: int)
    : (flights: seq<Flight>)
    requires |airlines| > 0 && step >= 1
    ensures |flights| == GeneratedCount(|cities|, perDeparture, cap)
  {
    SampleFlightsUpTo(cities, airlines, perDeparture, step, cap, now, |cities|)
  }

  /** A single sample keeps the promises of `GoodSample`. */
  lemma SampleFlightIsGood(cities: seq<string>, airlines: seq<string>, step: int, d: nat, i: nat, counter: nat, now: int,
                           f: Flight)
    requires d < |cities| && |airlines| > 0 && step >= 1
    requires f == SampleFlight(cities, airlines, step, d, i, counter, now)
    ensures GoodSample(cities, airlines, step, now, counter, f)
  {
    var base := BaseRupees(d, i);
    assert f.departureTime == DepartureSlot(step, d, i) && f.departureCity == cities[d];
    assert f.airline == Cycle(airlines, d + i) && f.arrivalCity == ArrivalCity(cities, d, i);
    assert f.basePrice == base * 100 && f.currentPrice == CurrentRupees(base, i) * 100;
  }

  /** A sample leaves from city `d` and lands its duration after it departs, wrapped at midnight. */
  lemma SampleFlightTimes(cities: seq<string>, airlines: seq<string>, step: int, d: nat, i: nat, counter: nat, now: int)
    requires d < |cities| && |airlines| > 0 && step >= 1
    ensures var f := SampleFlight(cities, airlines, step, d, i, counter, now);
      f.departureCity == cities[d]
      && ClockMinutes(f.arrivalTime) == (ClockMinutes(f.departureTime) + Duration(i)) % MinutesPerDay
  {
    var departureTime := DepartureSlot(step, d, i);
    assert SampleFlight(cities, airlines, step, d, i, counter, now).arrivalTime == ArrivalTime(departureTime, Duration(i));
  }

  /** The `j`-th flight of a row is the sample with running index `counter + j`. */
  lemma CityFlightAt(cities: seq<string>, airlines: seq<string>, step: int, d: nat, len: nat, counter: nat, now: int,
                     j: nat)
    requires d < |cities| && |airlines| > 0 && step >= 1 && j < len
    ensures CityFlights(cities, airlines, step, d, len, counter, now)[j]
         == SampleFlight(cities, airlines, step, d, j, counter + j, now)
  {
    var row := SampleRow(cities, airlines, step, d, counter, now);
    SeqAt(len, row, j);
    assert row(j) == SampleFlight(cities, airlines, step, d, j, counter + j, now);
  }

  /** The `j`-th flight of a row is good. */
  lemma RowFlightGood(cities: seq<string>, airlines: seq<string>, step: int, d: nat, len: nat, counter: nat, now: int,
                      j: nat, f: Flight)
    requires d < |cities| && |airlines| > 0 && step >= 1 && j < len
    requires f == CityFlights(cities, airlines, step, d, len, counter, now)[j]
    ensures GoodSample(cities, airlines, step, now, counter + j, f)
  {
    CityFlightAt(cities, airlines, step, d, len, counter, now, j);
    SampleFlightIsGood(cities, airlines, step, d, j, counter + j, now, f);
  }

  /** The flight with running index `k` among the first `d` cities' flights is good. */
  lemma {:induction false} SampleFlightGood(cities: seq<string>, airlines: seq<string>, perDeparture: nat,
                                            step: int, cap: nat, now: int, d: nat, k: nat, f: Flight)
    requires d <= |cities| && |airlines| > 0 && step >= 1
    requires k < |SampleFlightsUpTo(cities, airlines, perDeparture, step, cap, now, d)|
    requires f == SampleFlightsUpTo(cities, airlines, perDeparture, step, cap, now, d)[k]
    ensures GoodSample(cities, airlines, step, now, k, f)
  {
    var before := SampleFlightsUpTo(cities, airlines, perDeparture, step, cap, now, d - 1);
    var len := RowLength(perDeparture, cap, |before|);
    var row := CityFlights(cities, airlines, step, d - 1, len, |before|, now);
    assert SampleFlightsUpTo(cities, airlines, perDeparture, step, cap, now, d) == before + row;
    if k < |before| {
      assert f == before[k];
      SampleFlightGood(cities, airlines, perDeparture, step, cap, now, d - 1, k, f);
    } else {
      var j := k - |before|;
      assert f == row[j];
      RowFlightGood(cities, airlines, step, d - 1, len, |before|, now, j, f);
    }
  }

  /** Every generated flight keeps the promises of `GoodSample`. */
  lemma SampleFlightsGood(cities: seq<string>, airlines: seq<string>, perDeparture: nat, step: int, cap: nat, now: int)
    requires |airlines| > 0 && step >= 1
    ensures forall k | 0 <= k < |SampleFlights(cities, airlines, perDeparture, step, cap, now)| ::
      GoodSample(cities, airlines, step, now, k, SampleFlights(cities, airlines, perDeparture, step, cap, now)[k])
  {
    forall k | 0 <= k < |SampleFlights(cities, airlines, perDeparture, step, cap, now)| {
      SampleFlightGood(cities, airlines, perDeparture, step, cap, now, |cities|, k,
                       SampleFlights(cities, airlines, perDeparture, step, cap, now)[k]);
    }
  }

  /**
   * The `forEach` callback of one departure city: push flights until
   * `perDeparture` are made or the list reaches the cap, advancing the id
   * counter and the slot index.
   */
  method EmitCity(cities: seq<string>, airlines: seq<string>, step: int, depIdx: nat,
                  perDeparture: nat, totalFlights: nat, now: int, flights0: seq<Flight>, counter0: nat)
    returns (flights: seq<Flight>, globalCounter: nat)
    requires depIdx < |cities| && |airlines| > 0 && step >= 1
    requires counter0 == FirstCounter + |flights0|
    ensures flights == flights0 + CityFlights(cities, airlines, step, depIdx,
                                              RowLength(perDeparture, totalFlights, |flights0|), |flights0|, now)
    ensures globalCounter == FirstCounter + |flights|
  {
    flights, globalCounter := flights0, counter0;
    var before := |flights0|;
    var i := 0;
    while i < perDeparture
      invariant 0 <= i <= RowLength(perDeparture, totalFlights, before)
      invariant totalFlights == 0 || before + i < totalFlights || i == 0
      invariant flights == flights0 + CityFlights(cities, airlines, step, depIdx, i, before, now)
      invariant globalCounter == FirstCounter + |flights|
    {
      var f := SampleFlight(cities, airlines, step, depIdx, i, before + i, now);
      CityFlightsSnoc(cities, airlines, step, depIdx, i, before, now);
      AppendAssoc(flights0, CityFlights(cities, airlines, step, depIdx, i, before, now), [f]);
      flights := flights + [f];
      globalCounter := globalCounter + 1;
      i := i + 1;
      assert flights == flights0 + CityFlights(cities, airlines, step, depIdx, i, before, now);
      if totalFlights != 0 && |flights| >= totalFlights {
        RowLengthAtCap(perDeparture, totalFlights, before, i);
        break;
      }
    }
  }

  /** `generateSampleFlights`: the slots, then every departure city in turn. */
  method GenerateSampleFlights(cities: seq<string>, airlines: seq<string>, perDeparture: nat, step: int,
                               totalFlights: nat, now: int)
    returns (flights: seq<Flight>)
    requires |airlines| > 0 && step >= 1
    ensures flights == SampleFlights(cities, airlines, perDeparture, step, totalFlights, now)
  {
    flights := [];
    var globalCounter := FirstCounter;
    for depIdx := 0 to |cities|
      invariant flights == SampleFlightsUpTo(cities, airlines, perDeparture, step, totalFlights, now, depIdx)
      invariant globalCounter == FirstCounter + |flights|
    {
      flights, globalCounter := EmitCity(cities, airlines, step, depIdx, perDeparture, totalFlights, now,
                                         flights, globalCounter);
    }
  }

  /**
   * The number of generated flights: `n * perDeparture` when that stays
   * within the cap (or there is none); otherwise the cap plus one flight for
   * every city after the one whose row reached it.
   */
  function SampleCount(n: nat, perDeparture: nat, cap: nat): int {
    if cap == 0 || perDeparture == 0 || n * perDeparture <= cap then n * perDeparture
    else cap + n - CeilSteps(cap, perDeparture)
  }

  /** The generator emits `SampleCount` flights. */
  lemma {:induction false} GeneratedCountClosed(d: nat, perDeparture: nat, cap: nat)
    ensures GeneratedCount(d, perDeparture, cap) == SampleCount(d, perDeparture, cap)
  {
    if d > 0 {
      GeneratedCountClosed(d - 1, perDeparture, cap);
      var p := perDeparture;
      var c := GeneratedCount(d - 1, p, cap);
      assert GeneratedCount(d, p, cap) == c + RowLength(p, cap, c);
      var bp, dp := (d - 1) * p, d * p;
      MulSucc(d, p);
      assert dp == bp + p;
      if cap == 0 || p == 0 {
        assert c == bp && RowLength(p, cap, c) == p;
      } else if dp <= cap {
        assert c == bp && RowLength(p, cap, c) == p;
      } else if bp < cap {
        assert c == bp && RowLength(p, cap, c) == cap - bp;
        CeilStepsOf(cap, p, d);
      } else if bp == cap {
        assert c == cap && RowLength(p, cap, c) == 1;
        CeilStepsOf(cap, p, d - 1);
      } else {
        CeilStepsAtMost(cap, p, d - 1);
        assert c == cap + (d - 1) - CeilSteps(cap, p) && RowLength(p, cap, c) == 1;
      }
    }
  }

  /** Every generated flight has a distinct id when no airline name holds a digit. */
  lemma SampleIdsUnique(cities: seq<string>, airlines: seq<string>, perDeparture: nat, step: int, cap: nat, now: int)
    requires |airlines| > 0 && step >= 1
    requires forall a | a in airlines :: DigitFree(a)
    ensures var flights := SampleFlights(cities, airlines, perDeparture, step, cap, now);
      forall j, k | 0 <= j < k < |flights| :: flights[j].flightId != flights[k].flightId
  {
    var flights := SampleFlights(cities, airlines, perDeparture, step, cap, now);
    SampleFlightsGood(cities, airlines, perDeparture, step, cap, now);
    forall j, k | 0 <= j < k < |flights|
      ensures flights[j].flightId != flights[k].flightId
    {
      assert GoodSample(cities, airlines, step, now, j, flights[j]);
      assert GoodSample(cities, airlines, step, now, k, flights[k]);
      FlightIdsDistinct(flights[j].airline, flights[k].airline, FirstCounter + j, FirstCounter + k);
    }
  }

  /**
   * With the seeding options (five cities, five flights each, cap 20) the
   * generator overshoots: the fifth city still emits one flight.
   */
  lemma SeedGenerationOvershoots(now: int)
    ensures |SampleFlights(SeedCities, DefaultAirlines, SeedPerDeparture, SeedMinuteStep, SeedTarget, now)| == 21
  {
    GeneratedCountClosed(5, SeedPerDeparture, SeedTarget);
    CeilStepsOf(SeedTarget, SeedPerDeparture, 4);
  }
}
