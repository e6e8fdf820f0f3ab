/**
 * The time filter of the flight search page
 * (`frontend/src/components/FlightSearch.jsx`): parsing `HH:MM` texts the
 * way `split(':').map(Number)` does, the exact-then-within-an-hour
 * departure-time filter of a search, the list of arrival cities offered for
 * a departure city, and the travellers counter.
 */
module Search {
  import opened Wrappers
  import opened Models
  import opened Seeding

  // ---------------------------------------------------------------------
  // Numbers and `split`
  // ---------------------------------------------------------------------

  /** A JavaScript number as the time helpers can meet it: `NaN` or an integer. */
  datatype JsNum = NaN | Int(v: int)

  /** One or more decimal digits. */
  predicate AllDigits(s: string) {
    |s| > 0 && forall k | 0 <= k < |s| :: IsDigit(s[k])
  }

  /**
   * `Number(s)`: the empty text is 0, a run of decimal digits with an
   * optional sign is its value, anything else is `NaN`.
   */
  function NumberOf(s: string): JsNum {
    if s == "" then Int(0)
    else if AllDigits(s) then Int(DecimalValue(s))
    else if s[0] == '-' && AllDigits(s[1..]) then Int(-DecimalValue(s[1..]))
    else if s[0] == '+' && AllDigits(s[1..]) then Int(DecimalValue(s[1..]))
    else NaN
  }

  /** `Number` reads back the decimal text of every natural number. */
  lemma NumberOfDecimal(n: nat)
    ensures NumberOf(Decimal(n)) == Int(n)
  {
    DecimalDigits(n);
    DecimalRoundTrip(n);
  }

  /** `Number` reads back a zero-padded two-digit field. */
  lemma NumberOfPad2(n: int)
    requires 0 <= n < 100
    ensures NumberOf(Pad2(n)) == Int(n)
  {
    var p := Pad2(n);
    Pad2Digits(n);
    assert p[..1][..0] == [] && p[..|p| - 1] == p[..1];
    assert DecimalValue(p[..1]) == DigitValue(p[0]);
  }

  /** `s.split(sep)`: the pieces between the separators; there is always at least one. */
  function Split(s: string, sep: char): (parts: seq<string>)
    ensures |parts| >= 1
    decreases |s|
  {
    if s == [] then [""]
    else
      var rest := Split(s[1..], sep);
      if s[0] == sep then [""] + rest else [[s[0]] + rest[0]] + rest[1..]
  }

  /** `parts.join(sep)`, the inverse of `Split`. */
  function Join(parts: seq<string>, sep: char): string
    requires |parts| >= 1
    decreases |parts|
  {
    if |parts| == 1 then parts[0] else parts[0] + [sep] + Join(parts[1..], sep)
  }

  /** Splitting loses nothing: joining the pieces gives the text back. */
  lemma {:induction false} SplitJoin(s: string, sep: char)
    ensures Join(Split(s, sep), sep) == s
    decreases |s|
  {
    if s != [] {
      var rest := Split(s[1..], sep);
      SplitJoin(s[1..], sep);
      if s[0] == sep {
        assert Split(s, sep) == [""] + rest && ([""] + rest)[1..] == rest;
      } else {
        var parts := Split(s, sep);
        assert parts == [[s[0]] + rest[0]] + rest[1..];
        if |rest| == 1 {
          assert parts == [[s[0]] + rest[0]];
        } else {
          assert parts[1..] == rest[1..];
          assert Join(rest, sep) == rest[0] + [sep] + Join(rest[1..], sep);
        }
        assert s == [s[0]] + s[1..];
      }
    }
  }

  /** No piece of a split contains the separator. */
  lemma {:induction false} SplitPiecesFree(s: string, sep: char)
    ensures forall k | 0 <= k < |Split(s, sep)| :: sep !in Split(s, sep)[k]
    decreases |s|
  {
    if s != [] {
      var rest := Split(s[1..], sep);
      SplitPiecesFree(s[1..], sep);
      var parts := Split(s, sep);
      forall k | 0 <= k < |parts| ensures sep !in parts[k] {
        if k > 0 {
          if s[0] == sep {
            assert parts[k] == rest[k - 1];
          } else {
            assert parts[k] == rest[k];
          }
        } else if s[0] != sep {
          assert parts[0] == [s[0]] + rest[0];
        }
      }
    }
  }

  /** A text without the separator is one piece. */
  lemma {:induction false} SplitNoSeparator(s: string, sep: char)
    requires sep !in s
    ensures Split(s, sep) == [s]
    decreases |s|
  {
    if s != [] {
      assert sep !in s[1..];
      SplitNoSeparator(s[1..], sep);
      assert s == [s[0]] + s[1..];
    }
  }

  /** A separator after a separator-free head cuts the text there. */
  lemma {:induction false} SplitAtSeparator(a: string, sep: char, b: string)
    requires sep !in a
    ensures Split(a + [sep] + b, sep) == [a] + Split(b, sep)
    decreases |a|
  {
    var s := a + [sep] + b;
    if a == [] {
      assert s == [sep] + b && s[1..] == b;
    } else {
      assert s[0] == a[0] && s[1..] == a[1..] + [sep] + b;
      SplitAtSeparator(a[1..], sep, b);
      assert [a[0]] + a[1..] == a;
    }
  }

  // ---------------------------------------------------------------------
  // Minutes of day
  // ---------------------------------------------------------------------

  /**
   * `timeToMinutesSafe` of `handleSearch`: `null` for a missing or empty
   * time or when the hour or the minute field is `NaN`; otherwise
   * `hh * 60 + mm`. A text without `:` has an `undefined` minute field,
   * which `Number.isNaN` lets through and the sum turns into `NaN`.
   */
  function TimeToMinutesSafe(t: string): Option<JsNum> {
    if t == "" then None
    else
      var parts := Split(t, ':');
      var hh := NumberOf(parts[0]);
      if hh.NaN? then None
      else if |parts| < 2 then Some(NaN)
      else
        var mm := NumberOf(parts[1]);
        if mm.NaN? then None else Some(Int(hh.v * 60 + mm.v))
  }

  /** `n || 0` for a number or `undefined`: `NaN` and 0 both give 0. */
  function OrZero(n: JsNum): int {
    if n.NaN? then 0 else n.v
  }

  /** The lenient `timeToMinutes` of `getAvailableArrivalCities`: missing or `NaN` fields count as 0. */
  function TimeToMinutes(t: string): int {
    var parts := Split(t, ':');
    OrZero(NumberOf(parts[0])) * 60 + (if |parts| < 2 then 0 else OrZero(NumberOf(parts[1])))
  }

  /** An `HH:MM` text splits into its two fields. */
  lemma SplitHhmm(h: int, m: int)
    requires 0 <= h < 100 && 0 <= m < 100
    ensures Split(Hhmm(h, m), ':') == [Pad2(h), Pad2(m)]
  {
    Pad2Digits(h);
    Pad2Digits(m);
    assert ':' !in Pad2(h) && ':' !in Pad2(m);
    assert Hhmm(h, m) == Pad2(h) + [':'] + Pad2(m);
    SplitAtSeparator(Pad2(h), ':', Pad2(m));
    SplitNoSeparator(Pad2(m), ':');
  }

  /** Both parsers read every `HH:MM` text the generator writes as its minute of day. */
  lemma TimeOfHhmm(h: int, m: int)
    requires 0 <= h < 100 && 0 <= m < 100
    ensures TimeToMinutesSafe(Hhmm(h, m)) == Some(Int(h * 60 + m))
    ensures TimeToMinutes(Hhmm(h, m)) == h * 60 + m
  {
    SplitHhmm(h, m);
    NumberOfPad2(h);
    NumberOfPad2(m);
    assert Hhmm(h, m) != "" by {
      assert |Hhmm(h, m)| == |Pad2(h)| + 1 + |Pad2(m)|;
    }
  }

  /** Where the safe parser yields a number, the lenient one yields the same number. */
  lemma LenientAgreesWithSafe(t: string, x: int)
    requires TimeToMinutesSafe(t) == Some(Int(x))
    ensures TimeToMinutes(t) == x
  {
  }

  /** Where the safe parser gives up, the lenient one still answers, with 0 for each unreadable field. */
  lemma LenientDiffersFromSafe()
    ensures TimeToMinutesSafe("") == None && TimeToMinutes("") == 0
    ensures TimeToMinutesSafe("xx:30") == None && TimeToMinutes("xx:30") == 30
    ensures TimeToMinutesSafe("7") == Some(NaN) && TimeToMinutes("7") == 420
  {
    assert Split("", ':') == [""];
    assert "xx:30" == "xx" + [':'] + "30";
    SplitAtSeparator("xx", ':', "30");
    SplitNoSeparator("30", ':');
    assert NumberOf("xx") == NaN by {
      assert !IsDigit("xx"[0]);
    }
    assert DecimalValue("30") == 30 by {
      assert "30"[..1] == "3" && "3"[..0] == "";
    }
    SplitNoSeparator("7", ':');
    assert DecimalValue("7") == 7 by {
      assert "7"[..0] == "";
    }
  }

  // ---------------------------------------------------------------------
  // The departure-time filter of a search
  // ---------------------------------------------------------------------

  /** `list.filter(p)`: the elements that pass, in list order. */
  function Filter<T>(s: seq<T>, p: T -> bool): (r: seq<T>)
    ensures |r| <= |s|
    decreases |s|
  {
    if s == [] then [] else (if p(s[0]) then [s[0]] else []) + Filter(s[1..], p)
  }

  /** An element is kept exactly when it is in the list and passes. */
  lemma {:induction false} FilterMembers<T>(s: seq<T>, p: T -> bool)
    ensures forall x :: x in Filter(s, p) <==> x in s && p(x)
    decreases |s|
  {
    if s != [] {
      FilterMembers(s[1..], p);
      assert s == [s[0]] + s[1..];
    }
  }

  /** Nothing passes, so nothing is kept. */
  lemma {:induction false} FilterNone<T>(s: seq<T>, p: T -> bool)
    requires forall k | 0 <= k < |s| :: !p(s[k])
    ensures Filter(s, p) == []
    decreases |s|
  {
    if s != [] {
      assert !p(s[0]);
      forall k | 0 <= k < |s[1..]| ensures !p(s[1..][k]) {
        assert s[1..][k] == s[k + 1];
      }
      FilterNone(s[1..], p);
    }
  }

  /** `ft - target` on numbers that may be `NaN`. */
  function Minus(a: JsNum, b: JsNum): JsNum {
    if a.Int? && b.Int? then Int(a.v - b.v) else NaN
  }

  /** `Math.abs(d) <= 60`, which is false for `NaN`. */
  predicate WithinHour(d: JsNum) {
    d.Int? && -60 <= d.v <= 60
  }

  /** The fallback test: the flight's time parses and lies within an hour of the target. */
  predicate NearTarget(f: Flight, target: JsNum) {
    var ft := TimeToMinutesSafe(f.departureTime);
    ft.Some? && WithinHour(Minus(ft.value, target))
  }

  /**
   * The departure-time step of `handleSearch`: no time keeps every flight;
   * otherwise the flights departing at exactly that text, or, when there
   * are none, those within 60 minutes of it; nothing when the target does
   * not parse.
   */
  function FilterByDepartureTime(flights: seq<Flight>, departureTime: string): seq<Flight> {
    if departureTime == "" then flights
    else
      var matched := Filter(flights, (f: Flight) => f.departureTime == departureTime);
      if |matched| > 0 then matched
      else
        var target := TimeToMinutesSafe(departureTime);
        if target.None? then [] else Filter(flights, (f: Flight) => NearTarget(f, target.value))
  }

  /** Some flight of the list departs at exactly `t`. */
  predicate HasExactTime(flights: seq<Flight>, t: string) {
    exists k | 0 <= k < |flights| :: flights[k].departureTime == t
  }

  /** Both parse to a number and the numbers are at most an hour apart. */
  predicate WithinHourOf(ft: string, t: string) {
    var a := TimeToMinutesSafe(ft);
    var b := TimeToMinutesSafe(t);
    a.Some? && a.value.Int? && b.Some? && b.value.Int? && -60 <= a.value.v - b.value.v <= 60
  }

  /**
   * Exact matches win: a flight is kept when it departs at exactly the
   * chosen time, or, only if no flight does, when both times parse and are
   * at most an hour apart (inclusive). No chosen time keeps the list as is.
   */
  lemma DepartureFilterSpec(flights: seq<Flight>, t: string)
    ensures t == "" ==> FilterByDepartureTime(flights, t) == flights
    ensures t != "" && HasExactTime(flights, t) ==>
      forall f :: f in FilterByDepartureTime(flights, t) <==> f in flights && f.departureTime == t
    ensures t != "" && !HasExactTime(flights, t) ==>
      forall f :: f in FilterByDepartureTime(flights, t) <==> f in flights && WithinHourOf(f.departureTime, t)
  {
    if t != "" {
      var exact := (f: Flight) => f.departureTime == t;
      FilterMembers(flights, exact);
      var matched := Filter(flights, exact);
      if HasExactTime(flights, t) {
        var k :| 0 <= k < |flights| && flights[k].departureTime == t;
        assert flights[k] in matched;
      } else {
        FilterNone(flights, exact);
        var target := TimeToMinutesSafe(t);
        if target.Some? {
          FilterMembers(flights, f => NearTarget(f, target.value));
        }
      }
    }
  }

  /** When nothing departs at exactly the chosen time and it does not parse to a number, nothing is kept. */
  lemma UnreadableTargetFindsNothing(flights: seq<Flight>, t: string)
    requires t != "" && !HasExactTime(flights, t)
    requires !(TimeToMinutesSafe(t).Some? && TimeToMinutesSafe(t).value.Int?)
    ensures FilterByDepartureTime(flights, t) == []
  {
    FilterNone(flights, (f: Flight) => f.departureTime == t);
    var target := TimeToMinutesSafe(t);
    if target.Some? {
      FilterNone(flights, (f: Flight) => NearTarget(f, target.value));
    }
  }

  // ---------------------------------------------------------------------
  // Available arrival cities
  // ---------------------------------------------------------------------

  /** `a < b` in the default order of `Array.prototype.sort`: character by character, a proper prefix first. */
  predicate Below(a: string, b: string)
    decreases |a|
  {
    if a == [] then b != []
    else if b == [] then false
    else if a[0] != b[0] then a[0] < b[0]
    else Below(a[1..], b[1..])
  }

  lemma {:induction false} BelowIrreflexive(a: string)
    ensures !Below(a, a)
    decreases |a|
  {
    if a != [] {
      BelowIrreflexive(a[1..]);
    }
  }

  lemma {:induction false} BelowTransitive(a: string, b: string, c: string)
    requires Below(a, b) && Below(b, c)
    ensures Below(a, c)
    decreases |a|
  {
    if a != [] && a[0] == b[0] && b[0] == c[0] {
      BelowTransitive(a[1..], b[1..], c[1..]);
    }
  }

  lemma {:induction false} BelowTotal(a: string, b: string)
    requires a != b
    ensures Below(a, b) || Below(b, a)
    decreases |a|
  {
    if a != [] && b != [] && a[0] == b[0] {
      assert a == [a[0]] + a[1..] && b == [b[0]] + b[1..];
      BelowTotal(a[1..], b[1..]);
    }
  }

  lemma BelowAsymmetric(a: string, b: string)
    requires Below(a, b)
    ensures !Below(b, a)
  {
    if Below(b, a) {
      BelowTransitive(a, b, a);
      BelowIrreflexive(a);
    }
  }

  /** Strictly ascending, hence free of duplicates. */
  predicate Ascending(s: seq<string>) {
    forall i, j | 0 <= i < j < |s| :: Below(s[i], s[j])
  }

  /** No value occurs twice. */
  predicate NoDuplicates(s: seq<string>) {
    forall i, j | 0 <= i < j < |s| :: s[i] != s[j]
  }

  /** `arr.filter((city, index) => arr.indexOf(city) === index)`: each value at its first position only. */
  function FirstOccurrences(s: seq<string>): seq<string>
    decreases |s|
  {
    if s == [] then []
    else
      var init := s[..|s| - 1];
      var last := s[|s| - 1];
      if last in init then FirstOccurrences(init) else FirstOccurrences(init) + [last]
  }

  /** Removing repeats keeps every value once. */
  lemma {:induction false} FirstOccurrencesSpec(s: seq<string>)
    ensures forall x :: x in FirstOccurrences(s) <==> x in s
    ensures NoDuplicates(FirstOccurrences(s))
    decreases |s|
  {
    if s != [] {
      var init := s[..|s| - 1];
      FirstOccurrencesSpec(init);
      assert s == init + [s[|s| - 1]];
    }
  }

  /** Put `x` before the first element it is below. */
  function Insert(x: string, s: seq<string>): seq<string>
    decreases |s|
  {
    if s == [] || Below(x, s[0]) then [x] + s else [s[0]] + Insert(x, s[1..])
  }

  /** `.sort()` of a list of strings, as an insertion sort. */
  function SortStrings(s: seq<string>): seq<string>
    decreases |s|
  {
    if s == [] then [] else Insert(s[0], SortStrings(s[1..]))
  }

  /** Inserting adds exactly one occurrence of `x`. */
  lemma {:induction false} InsertPerm(x: string, s: seq<string>)
    ensures multiset(Insert(x, s)) == multiset(s) + multiset{x}
    decreases |s|
  {
    if s != [] && !Below(x, s[0]) {
      InsertPerm(x, s[1..]);
      assert s == [s[0]] + s[1..];
    }
  }

  /** Every later element of an ascending list is above its head. */
  lemma AscendingHead(s: seq<string>, y: string)
    requires Ascending(s) && s != [] && y in s[1..]
    ensures Below(s[0], y)
  {
    var i :| 0 <= i < |s[1..]| && s[1..][i] == y;
    assert s[i + 1] == y;
  }

  lemma {:induction false} InsertAscending(x: string, s: seq<string>)
    requires Ascending(s) && x !in s
    ensures Ascending(Insert(x, s))
    decreases |s|
  {
    if s != [] && !Below(x, s[0]) {
      BelowTotal(x, s[0]);
      InsertAscending(x, s[1..]);
      InsertPerm(x, s[1..]);
      var r := Insert(x, s[1..]);
      forall j | 0 <= j < |r| ensures Below(s[0], r[j]) {
        assert r[j] in multiset(s[1..]) + multiset{x};
        if r[j] != x {
          AscendingHead(s, r[j]);
        }
      }
    } else if s != [] {
      forall j | 0 < j < |s| ensures Below(x, s[j]) {
        BelowTransitive(x, s[0], s[j]);
      }
    }
  }

  /** Sorting keeps every value with its number of occurrences. */
  lemma {:induction false} SortStringsPerm(s: seq<string>)
    ensures multiset(SortStrings(s)) == multiset(s)
    decreases |s|
  {
    if s != [] {
      SortStringsPerm(s[1..]);
      InsertPerm(s[0], SortStrings(s[1..]));
      assert s == [s[0]] + s[1..];
    }
  }

  /** Sorting a list without repeats gives its values in strictly ascending order. */
  lemma {:induction false} SortStringsSpec(s: seq<string>)
    requires NoDuplicates(s)
    ensures Ascending(SortStrings(s))
    ensures multiset(SortStrings(s)) == multiset(s)
    decreases |s|
  {
    SortStringsPerm(s);
    if s != [] {
      assert NoDuplicates(s[1..]) by {
        forall i, j | 0 <= i < j < |s[1..]| ensures s[1..][i] != s[1..][j] {
          assert s[1..][i] == s[i + 1] && s[1..][j] == s[j + 1];
        }
      }
      SortStringsSpec(s[1..]);
      assert s[0] !in multiset(s[1..]) by {
        forall j | 0 <= j < |s[1..]| ensures s[1..][j] != s[0] {
          assert s[1..][j] == s[j + 1];
        }
      }
      InsertAscending(s[0], SortStrings(s[1..]));
    }
  }

  /** Lists with the same values are empty together. */
  lemma EmptyTogether(a: seq<string>, b: seq<string>)
    requires forall x :: x in a <==> x in b
    ensures a == [] <==> b == []
  {
    if a != [] {
      assert a[0] in b;
    }
    if b != [] {
      assert b[0] in a;
    }
  }

  /** Two ascending lists with the same values are the same list, whichever algorithm sorted them. */
  lemma {:induction false} AscendingUnique(a: seq<string>, b: seq<string>)
    requires Ascending(a) && Ascending(b)
    requires forall x :: x in a <==> x in b
    ensures a == b
    decreases |a|
  {
    if a != [] && b != [] {
      assert a[0] in a && b[0] in b;
      if a[0] != b[0] {
        var i :| 0 <= i < |a| && a[i] == b[0];
        var j :| 0 <= j < |b| && b[j] == a[0];
        assert Below(a[0], a[i]) && Below(b[0], b[j]);
        BelowAsymmetric(a[0], b[0]);
        assert false;
      }
      forall x ensures x in a[1..] <==> x in b[1..] {
        if x in a[1..] {
          var i :| 0 <= i < |a[1..]| && a[1..][i] == x;
          assert Below(a[0], a[i + 1]);
          BelowIrreflexive(x);
          assert x in b && x != b[0];
          var j :| 0 <= j < |b| && b[j] == x;
          assert b[1..][j - 1] == x;
        }
        if x in b[1..] {
          var j :| 0 <= j < |b[1..]| && b[1..][j] == x;
          assert Below(b[0], b[j + 1]);
          BelowIrreflexive(x);
          assert x in a && x != a[0];
          var i :| 0 <= i < |a| && a[i] == x;
          assert a[1..][i - 1] == x;
        }
      }
      AscendingUnique(a[1..], b[1..]);
      assert a == [a[0]] + a[1..] && b == [b[0]] + b[1..];
    } else {
      EmptyTogether(a, b);
    }
  }

  /** `candidates.map(flight => flight.arrival_city)`. */
  function ArrivalCities(flights: seq<Flight>): (cities: seq<string>)
    ensures |cities| == |flights|
  {
    seq(|flights|, k requires 0 <= k < |flights| => flights[k].arrivalCity)
  }

  /**
   * The flights `getAvailableArrivalCities` looks at: those departing
   * `searchFrom`, narrowed by the chosen time like a search, but with the
   * lenient parser on both sides.
   */
  function Candidates(flights: seq<Flight>, searchFrom: string, departureTime: string): seq<Flight> {
    var candidates := Filter(flights, (f: Flight) => f.departureCity == searchFrom);
    if departureTime == "" then candidates
    else
      var target := TimeToMinutes(departureTime);
      var exact := Filter(candidates, (f: Flight) => f.departureTime == departureTime);
      if |exact| > 0 then exact
      else Filter(candidates, (f: Flight) => -60 <= TimeToMinutes(f.departureTime) - target <= 60)
  }

  /** `getAvailableArrivalCities`: the distinct arrival cities of the candidates, sorted. */
  function AvailableArrivalCities(flights: seq<Flight>, searchFrom: string, departureTime: string): seq<string> {
    SortStrings(FirstOccurrences(ArrivalCities(Candidates(flights, searchFrom, departureTime))))
  }

  /** Some flight from `searchFrom` departs at exactly `t`. */
  predicate HasExactFrom(flights: seq<Flight>, searchFrom: string, t: string) {
    exists k | 0 <= k < |flights| :: flights[k].departureCity == searchFrom && flights[k].departureTime == t
  }

  /** Is `f` one of the flights the arrival list is drawn from? */
  predicate IsCandidate(flights: seq<Flight>, searchFrom: string, t: string, f: Flight) {
    f in flights && f.departureCity == searchFrom
    && (t == "" || (if HasExactFrom(flights, searchFrom, t) then f.departureTime == t
                    else -60 <= TimeToMinutes(f.departureTime) - TimeToMinutes(t) <= 60))
  }

  /** The candidates are exactly the flights from `searchFrom` that pass the exact-then-hour test. */
  lemma CandidatesSpec(flights: seq<Flight>, searchFrom: string, t: string)
    ensures forall f :: f in Candidates(flights, searchFrom, t) <==> IsCandidate(flights, searchFrom, t, f)
  {
    if t == "" {
      FilterMembers(flights, (f: Flight) => f.departureCity == searchFrom);
    } else if HasExactFrom(flights, searchFrom, t) {
      ExactCandidates(flights, searchFrom, t);
    } else {
      NearCandidates(flights, searchFrom, t);
    }
  }

  /** `CandidatesSpec` when some flight from `searchFrom` leaves at exactly `t`. */
  lemma ExactCandidates(flights: seq<Flight>, searchFrom: string, t: string)
    requires t != "" && HasExactFrom(flights, searchFrom, t)
    ensures forall f :: f in Candidates(flights, searchFrom, t) <==> f in flights && f.departureCity == searchFrom && f.departureTime == t
  {
    var from := (f: Flight) => f.departureCity == searchFrom;
    var candidates := Filter(flights, from);
    FilterMembers(flights, from);
    var exact := (f: Flight) => f.departureTime == t;
    FilterMembers(candidates, exact);
    var k :| 0 <= k < |flights| && flights[k].departureCity == searchFrom && flights[k].departureTime == t;
    assert flights[k] in Filter(candidates, exact);
  }

  /** `CandidatesSpec` when no flight from `searchFrom` leaves at exactly `t`: the hour window decides. */
  lemma NearCandidates(flights: seq<Flight>, searchFrom: string, t: string)
    requires t != "" && !HasExactFrom(flights, searchFrom, t)
    ensures forall f :: f in Candidates(flights, searchFrom, t) <==>
      f in flights && f.departureCity == searchFrom && -60 <= TimeToMinutes(f.departureTime) - TimeToMinutes(t) <= 60
  {
    var from := (f: Flight) => f.departureCity == searchFrom;
    var candidates := Filter(flights, from);
    FilterMembers(flights, from);
    var exact := (f: Flight) => f.departureTime == t;
    forall k | 0 <= k < |candidates| ensures !exact(candidates[k]) {
      assert candidates[k] in candidates;
      var j :| 0 <= j < |flights| && flights[j] == candidates[k];
    }
    FilterNone(candidates, exact);
    var target := TimeToMinutes(t);
    FilterMembers(candidates, (f: Flight) => -60 <= TimeToMinutes(f.departureTime) - target <= 60);
  }

  /**
   * The arrival list is strictly ascending (so without repeats) and holds
   * exactly the arrival cities of the candidate flights.
   */
  lemma AvailableArrivalCitiesSpec(flights: seq<Flight>, searchFrom: string, t: string)
    ensures Ascending(AvailableArrivalCities(flights, searchFrom, t))
    ensures forall c :: c in AvailableArrivalCities(flights, searchFrom, t) <==>
      exists f :: IsCandidate(flights, searchFrom, t, f) && f.arrivalCity == c
  {
    var candidates := Candidates(flights, searchFrom, t);
    var cities := ArrivalCities(candidates);
    var unique := FirstOccurrences(cities);
    var r := SortStrings(unique);
    CandidatesSpec(flights, searchFrom, t);
    FirstOccurrencesSpec(cities);
    SortStringsSpec(unique);
    forall c ensures c in r <==> exists f :: IsCandidate(flights, searchFrom, t, f) && f.arrivalCity == c {
      assert c in r <==> c in multiset(unique);
      if c in cities {
        var k :| 0 <= k < |cities| && cities[k] == c;
        assert IsCandidate(flights, searchFrom, t, candidates[k]);
      }
      if exists f :: IsCandidate(flights, searchFrom, t, f) && f.arrivalCity == c {
        var f :| IsCandidate(flights, searchFrom, t, f) && f.arrivalCity == c;
        var k :| 0 <= k < |candidates| && candidates[k] == f;
        assert cities[k] == c;
      }
    }
  }

  // ---------------------------------------------------------------------
  // Travellers
  // ---------------------------------------------------------------------

  /** The travellers counter starts at 1. */
  const InitialTravellers: int := 1

  /** The minus button: `Math.max(1, prev - 1)`. */
  function DecrementTravellers(prev: int): (n: int)
    ensures n >= 1
    ensures prev >= 1 ==> n <= prev
    ensures prev > 1 ==> n == prev - 1
  {
    if prev - 1 >= 1 then prev - 1 else 1
  }

  /** The plus button: `Math.min(9, prev + 1)`. */
  function IncrementTravellers(prev: int): (n: int)
    ensures n <= 9
    ensures prev <= 9 ==> n >= prev
    ensures prev < 9 ==> n == prev + 1
  {
    if prev + 1 <= 9 then prev + 1 else 9
  }

  /** The counter after a run of button presses (`true` for plus). */
  function AfterPresses(start: int, presses: seq<bool>): int
    decreases |presses|
  {
    if presses == [] then start
    else
      var next := if presses[0] then IncrementTravellers(start) else DecrementTravellers(start);
      AfterPresses(next, presses[1..])
  }

  /** From its initial value, the counter stays within 1 to 9 whatever the buttons pressed. */
  lemma {:induction false} TravellersStayInRange(start: int, presses: seq<bool>)
    requires 1 <= start <= 9
    ensures 1 <= AfterPresses(start, presses) <= 9
    decreases |presses|
  {
    if presses != [] {
      var next := if presses[0] then IncrementTravellers(start) else DecrementTravellers(start);
      TravellersStayInRange(next, presses[1..]);
    }
  }
}
