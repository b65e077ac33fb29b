/**
 * The trip listing page's query engine: the sort toggle and the filter
 * record the page keeps, the chain of `filter` calls over the fetched trips,
 * and the stable sort of the filtered copy by one key and a direction.
 */
module TripQuery {
  import opened Wrappers
  import opened Text
  import opened Numbers
  import opened TripModel
  import opened JsArray

  // ---------------------------------------------------------------------
  // Sort configuration and the toggle
  // ---------------------------------------------------------------------

  datatype SortField = Name | PerPerson | DurationNights | Rating
  datatype Direction = Ascending | Descending
  datatype SortConfig = SortConfig(key: SortField, direction: Direction)

  /** The page opens sorted by name, ascending. */
  const InitialSort := SortConfig(Name, Ascending)

  /**
   * Clicking a sort button: the key becomes the clicked one; the direction
   * turns descending only when that key was already active and ascending.
   */
  function NextSort(current: SortConfig, key: SortField): (next: SortConfig)
    ensures next.key == key
    ensures next.direction == Descending <==> current.key == key && current.direction == Ascending
  {
    SortConfig(key, if current.key == key && current.direction == Ascending then Descending else Ascending)
  }

  /** Clicking the active key flips the direction, and clicking it again restores it. */
  lemma ReselectToggles(current: SortConfig)
    ensures NextSort(current, current.key).direction != current.direction
    ensures NextSort(NextSort(current, current.key), current.key) == current
  {
  }

  // ---------------------------------------------------------------------
  // Filter record and its update
  // ---------------------------------------------------------------------

  datatype FilterName = SearchTerm | MinPrice | MaxPrice | MinDurationNights | MinRating

  /** The five form inputs, as the text they hold; the empty text means "no filter". */
  datatype Filters = Filters(
    searchTerm: string,
    minPrice: string,
    maxPrice: string,
    minDurationNights: string,
    minRating: string)

  const InitialFilters := Filters("", "", "", "", "")

  function FilterValue(f: Filters, n: FilterName): string {
    match n
    case SearchTerm => f.searchTerm
    case MinPrice => f.minPrice
    case MaxPrice => f.maxPrice
    case MinDurationNights => f.minDurationNights
    case MinRating => f.minRating
  }

  /** An input's change event: the named field takes the new text, every other field keeps its own. */
  function WithFilter(f: Filters, n: FilterName, value: string): (g: Filters)
    ensures FilterValue(g, n) == value
    ensures forall m :: m != n ==> FilterValue(g, m) == FilterValue(f, m)
  {
    match n
    case SearchTerm => f.(searchTerm := value)
    case MinPrice => f.(minPrice := value)
    case MaxPrice => f.(maxPrice := value)
    case MinDurationNights => f.(minDurationNights := value)
    case MinRating => f.(minRating := value)
  }

  // ---------------------------------------------------------------------
  // Filtering
  // ---------------------------------------------------------------------

  /**
   * The search predicate: the lowered term occurs in the lowered name,
   * resort or description; a field that is empty never matches.
   */
  predicate SearchHit(term: string, t: Trip)
    ensures SearchHit(term, t) ==> t.name != "" || t.resort != "" || t.description != ""
    ensures SearchHit(term, t) ==> |term| <= |t.name| || |term| <= |t.resort| || |term| <= |t.description|
  {
    var needle := Lower(term);
    || (t.name != "" && Includes(Lower(t.name), needle))
    || (t.resort != "" && Includes(Lower(t.resort), needle))
    || (t.description != "" && Includes(Lower(t.description), needle))
  }

  /** A trip matches the search exactly when the lowered term occurs, at some position, in the lowered name, resort or description, and that field is not empty. */
  lemma SearchHitMeaning(term: string, t: Trip)
    ensures SearchHit(term, t) <==> (
      || (t.name != "" && exists i: nat :: OccursAt(Lower(t.name), Lower(term), i))
      || (t.resort != "" && exists i: nat :: OccursAt(Lower(t.resort), Lower(term), i))
      || (t.description != "" && exists i: nat :: OccursAt(Lower(t.description), Lower(term), i)))
  {
    var needle := Lower(term);
    if t.name != "" && Includes(Lower(t.name), needle) {
      var i: nat :| OccursAt(Lower(t.name), needle, i);
      assert t.name != "" && exists j: nat :: OccursAt(Lower(t.name), Lower(term), j);
    } else if t.resort != "" && Includes(Lower(t.resort), needle) {
      var i: nat :| OccursAt(Lower(t.resort), needle, i);
      assert t.resort != "" && exists j: nat :: OccursAt(Lower(t.resort), Lower(term), j);
    } else if t.description != "" && Includes(Lower(t.description), needle) {
      var i: nat :| OccursAt(Lower(t.description), needle, i);
      assert t.description != "" && exists j: nat :: OccursAt(Lower(t.description), Lower(term), j);
    }
  }

  /** `parseFloat(trip.perPerson) >= parseFloat(bound)`. */
  predicate PriceAtLeast(bound: string, t: Trip) {
    AtLeast(ParseFloat(t.perPerson), ParseFloat(bound))
  }

  /** `parseFloat(trip.perPerson) <= parseFloat(bound)`. */
  predicate PriceAtMost(bound: string, t: Trip) {
    AtMost(ParseFloat(t.perPerson), ParseFloat(bound))
  }

  function AsReal(n: Option<int>): Option<real> {
    if n.Some? then Some(n.value as real) else None
  }

  /** `trip.durationNights >= parseInt(bound, 10)`. */
  predicate NightsAtLeast(bound: string, t: Trip) {
    AtLeast(Some(t.durationNights), AsReal(ParseInt(bound)))
  }

  /** `trip.rating >= parseInt(bound, 10)`. */
  predicate RatingAtLeast(bound: string, t: Trip) {
    AtLeast(Some(t.rating), AsReal(ParseInt(bound)))
  }

  /** `if (input) s = s.filter(p)`: the filter runs only when its input is non-empty. */
  function FilterWhen(input: string, s: seq<Trip>, p: Trip -> bool): seq<Trip> {
    if input != "" then Keep(s, p) else s
  }

  /** The page's chain of filters, in the order it runs them; a bound or a price that does not parse is NaN and admits nothing. */
  function FilterTrips(f: Filters, s: seq<Trip>): (r: seq<Trip>)
    ensures |r| <= |s|
    ensures forall t :: t in r ==> t in s && Admits(f, t)
  {
    var bySearch := FilterWhen(f.searchTerm, s, t => SearchHit(f.searchTerm, t));
    var byMinPrice := FilterWhen(f.minPrice, bySearch, t => PriceAtLeast(f.minPrice, t));
    var byMaxPrice := FilterWhen(f.maxPrice, byMinPrice, t => PriceAtMost(f.maxPrice, t));
    var byNights := FilterWhen(f.minDurationNights, byMaxPrice, t => NightsAtLeast(f.minDurationNights, t));
    FilterWhen(f.minRating, byNights, t => RatingAtLeast(f.minRating, t))
  }

  /**
   * The filters stated as one conjunction: every non-empty input constrains
   * the trip, the empty ones not at all.
   */
  predicate Admits(f: Filters, t: Trip) {
    && (f.searchTerm == "" || SearchHit(f.searchTerm, t))
    && (f.minPrice == "" || PriceAtLeast(f.minPrice, t))
    && (f.maxPrice == "" || PriceAtMost(f.maxPrice, t))
    && (f.minDurationNights == "" || NightsAtLeast(f.minDurationNights, t))
    && (f.minRating == "" || RatingAtLeast(f.minRating, t))
  }

  /** One stage of the chain: what passed the earlier stages, filtered when the input is set. */
  lemma FilterWhenStep(input: string, s0: seq<Trip>, before: Trip -> bool, p: Trip -> bool, after: Trip -> bool)
    requires forall x :: after(x) == (before(x) && (input == "" || p(x)))
    ensures FilterWhen(input, Keep(s0, before), p) == Keep(s0, after)
  {
    if input != "" {
      KeepKeep(s0, before, p, after);
    } else {
      KeepSame(s0, before, after);
    }
  }

  /**
   * The chain of `filter` calls keeps exactly the trips that satisfy every
   * active filter, in their original order, each as often as it occurs.
   */
  lemma FilterTripsMeaning(f: Filters, s: seq<Trip>, t: Trip)
    ensures FilterTrips(f, s) == Keep(s, x => Admits(f, x))
    ensures multiset(FilterTrips(f, s))[t] == if Admits(f, t) then multiset(s)[t] else 0
    ensures t in FilterTrips(f, s) <==> t in s && Admits(f, t)
  {
    var all: Trip -> bool := x => true;
    var a1: Trip -> bool := x => f.searchTerm == "" || SearchHit(f.searchTerm, x);
    var a2: Trip -> bool := x => a1(x) && (f.minPrice == "" || PriceAtLeast(f.minPrice, x));
    var a3: Trip -> bool := x => a2(x) && (f.maxPrice == "" || PriceAtMost(f.maxPrice, x));
    var a4: Trip -> bool := x => a3(x) && (f.minDurationNights == "" || NightsAtLeast(f.minDurationNights, x));
    var a5: Trip -> bool := x => Admits(f, x);
    KeepAll(s, all);
    FilterWhenStep(f.searchTerm, s, all, x => SearchHit(f.searchTerm, x), a1);
    FilterWhenStep(f.minPrice, s, a1, x => PriceAtLeast(f.minPrice, x), a2);
    FilterWhenStep(f.maxPrice, s, a2, x => PriceAtMost(f.maxPrice, x), a3);
    FilterWhenStep(f.minDurationNights, s, a3, x => NightsAtLeast(f.minDurationNights, x), a4);
    FilterWhenStep(f.minRating, s, a4, x => RatingAtLeast(f.minRating, x), a5);
    KeepCount(s, a5, t);
  }

  /** With every input empty no `filter` runs: the trips pass through unchanged. */
  lemma NoFilterKeepsAll(s: seq<Trip>)
    ensures FilterTrips(InitialFilters, s) == s
  {
  }

  // ---------------------------------------------------------------------
  // Sorting
  // ---------------------------------------------------------------------

  /** What the comparator compares: lowered text, a number, or NaN for a price that does not parse. */
  datatype SortValue = Textual(text: string) | Numeric(number: real) | NotANumber

  function SortValueOf(key: SortField, t: Trip): SortValue {
    match key
    case PerPerson => (var p := ParseFloat(t.perPerson); if p.Some? then Numeric(p.value) else NotANumber)
    case Rating => Numeric(t.rating)
    case DurationNights => Numeric(t.durationNights)
    case Name => Textual(if t.name != "" then Lower(t.name) else "")
  }

  /** JavaScript `<` on the compared values; false whenever NaN is involved. */
  predicate Below(a: SortValue, b: SortValue) {
    match (a, b)
    case (Textual(x), Textual(y)) => StrLess(x, y)
    case (Numeric(x), Numeric(y)) => x < y
    case _ => false
  }

  /** The comparator handed to `sort`: negative, zero or positive. */
  function Compare(cfg: SortConfig, a: Trip, b: Trip): (r: int)
    ensures -1 <= r <= 1
    ensures r != 0 ==> SortValueOf(cfg.key, a) != NotANumber && SortValueOf(cfg.key, b) != NotANumber
    ensures r != 0 ==> SortValueOf(cfg.key, a) != SortValueOf(cfg.key, b)
  {
    var va, vb := SortValueOf(cfg.key, a), SortValueOf(cfg.key, b);
    BelowIrreflexive(va);
    if Below(va, vb) then (if cfg.direction == Ascending then -1 else 1)
    else if Below(vb, va) then (if cfg.direction == Ascending then 1 else -1)
    else 0
  }

  /** The comparator places `a` after `b`. */
  predicate GoesAfter(cfg: SortConfig, a: Trip, b: Trip) {
    Compare(cfg, a, b) > 0
  }

  /** The comparator as the function value handed to `sort`. */
  function Comparator(cfg: SortConfig): (Trip, Trip) -> int {
    (a, b) => Compare(cfg, a, b)
  }

  /** No compared value is NaN, so the comparator is a consistent order. */
  predicate Comparable(key: SortField, s: seq<Trip>) {
    forall t :: t in s ==> SortValueOf(key, t) != NotANumber
  }

  /** Non-decreasing when ascending, non-increasing when descending. */
  predicate Ordered(cfg: SortConfig, s: seq<Trip>) {
    forall i, j :: 0 <= i < j < |s| ==>
      if cfg.direction == Ascending then !Below(SortValueOf(cfg.key, s[j]), SortValueOf(cfg.key, s[i]))
      else !Below(SortValueOf(cfg.key, s[i]), SortValueOf(cfg.key, s[j]))
  }

  /** Each trip's compared value, as a function value. */
  function KeyOf(key: SortField): Trip -> SortValue {
    t => SortValueOf(key, t)
  }

  /** The trips whose compared value is not NaN, as a function value. */
  function HasValue(key: SortField): Trip -> bool {
    t => SortValueOf(key, t) != NotANumber
  }

  lemma BelowIrreflexive(v: SortValue)
    ensures !Below(v, v)
  {
    if v.Textual? { StrLessIrreflexive(v.text); }
  }

  lemma BelowAsymmetric(a: SortValue, b: SortValue)
    requires Below(a, b)
    ensures !Below(b, a)
  {
    if a.Textual? { StrLessAsymmetric(a.text, b.text); }
  }

  /** The comparator places `a` after `b` exactly when `a`'s value is beyond `b`'s in the chosen direction. */
  lemma GoesAfterMeaning(cfg: SortConfig, a: Trip, b: Trip)
    ensures GoesAfter(cfg, a, b) <==>
      if cfg.direction == Ascending then Below(SortValueOf(cfg.key, b), SortValueOf(cfg.key, a))
      else Below(SortValueOf(cfg.key, a), SortValueOf(cfg.key, b))
  {
    var va, vb := SortValueOf(cfg.key, a), SortValueOf(cfg.key, b);
    if Below(va, vb) { BelowAsymmetric(va, vb); }
  }

  /** Two values of one key that are not NaN are of one kind. */
  lemma {:induction false} NotBelowTransitive(key: SortField, a: Trip, b: Trip, c: Trip)
    requires SortValueOf(key, a) != NotANumber && SortValueOf(key, b) != NotANumber && SortValueOf(key, c) != NotANumber
    requires !Below(SortValueOf(key, b), SortValueOf(key, a)) && !Below(SortValueOf(key, c), SortValueOf(key, b))
    ensures !Below(SortValueOf(key, c), SortValueOf(key, a))
  {
    var va, vb, vc := SortValueOf(key, a), SortValueOf(key, b), SortValueOf(key, c);
    if key == Name {
      if StrLess(vc.text, va.text) {
        if va.text == vb.text {
        } else {
          StrLessTotal(va.text, vb.text);
          StrLessTransitive(vc.text, va.text, vb.text);
        }
      }
    }
  }

  lemma NotAfterTransitive(cfg: SortConfig, a: Trip, b: Trip, c: Trip)
    requires SortValueOf(cfg.key, a) != NotANumber && SortValueOf(cfg.key, b) != NotANumber && SortValueOf(cfg.key, c) != NotANumber
    requires !GoesAfter(cfg, a, b) && !GoesAfter(cfg, b, c)
    ensures !GoesAfter(cfg, a, c)
  {
    GoesAfterMeaning(cfg, a, b);
    GoesAfterMeaning(cfg, b, c);
    GoesAfterMeaning(cfg, a, c);
    if cfg.direction == Ascending {
      NotBelowTransitive(cfg.key, a, b, c);
    } else {
      NotBelowTransitive(cfg.key, c, b, a);
    }
  }

  /** The comparator never places two trips after each other, and on values that are not NaN "not after" is transitive. */
  lemma ComparatorConsistent(cfg: SortConfig)
    ensures ConsistentOn(Comparator(cfg), HasValue(cfg.key))
  {
    var cmp, ok := Comparator(cfg), HasValue(cfg.key);
    forall a, b | ok(a) && ok(b) && cmp(a, b) > 0 ensures cmp(b, a) <= 0 {
      var va, vb := SortValueOf(cfg.key, a), SortValueOf(cfg.key, b);
      GoesAfterMeaning(cfg, a, b);
      GoesAfterMeaning(cfg, b, a);
      if Below(va, vb) { BelowAsymmetric(va, vb); }
    }
    forall a, b, c | ok(a) && ok(b) && ok(c) && cmp(a, b) <= 0 && cmp(b, c) <= 0
      ensures cmp(a, c) <= 0
    {
      NotAfterTransitive(cfg, a, b, c);
    }
  }

  /** The comparator only separates trips whose compared values differ. */
  lemma ComparatorTies(cfg: SortConfig)
    ensures forall a, b :: SortValueOf(cfg.key, a) == SortValueOf(cfg.key, b) ==> Compare(cfg, a, b) == 0
    ensures TiesOnEqualKeys(Comparator(cfg), KeyOf(cfg.key))
  {
    forall a, b | SortValueOf(cfg.key, a) == SortValueOf(cfg.key, b) ensures Compare(cfg, a, b) == 0 {
      BelowIrreflexive(SortValueOf(cfg.key, a));
    }
    forall a, b | Comparator(cfg)(a, b) > 0 ensures KeyOf(cfg.key)(a) != KeyOf(cfg.key)(b) {
      BelowIrreflexive(SortValueOf(cfg.key, a));
    }
  }

  /** When no compared value is NaN the sort's result is ordered by the key in the chosen direction. */
  lemma InsertionSortOrdered(cfg: SortConfig, s: seq<Trip>)
    requires Comparable(cfg.key, s)
    ensures Ordered(cfg, InsertionSort(Comparator(cfg), s))
  {
    ComparatorConsistent(cfg);
    assert AllOk(HasValue(cfg.key), s) by {
      forall k | 0 <= k < |s| ensures HasValue(cfg.key)(s[k]) { assert s[k] in s; }
    }
    InsertionSortSorted(Comparator(cfg), HasValue(cfg.key), s);
    var r := InsertionSort(Comparator(cfg), s);
    forall i, j | 0 <= i < j < |r|
      ensures if cfg.direction == Ascending then !Below(SortValueOf(cfg.key, r[j]), SortValueOf(cfg.key, r[i]))
              else !Below(SortValueOf(cfg.key, r[i]), SortValueOf(cfg.key, r[j]))
    {
      assert Comparator(cfg)(r[i], r[j]) <= 0;
      GoesAfterMeaning(cfg, r[i], r[j]);
    }
  }

  /**
   * The sort is stable: for every compared value, the trips that have it
   * come out in the order they went in.
   */
  lemma SortKeepsTies(cfg: SortConfig, s: seq<Trip>, v: SortValue)
    ensures WithKey(KeyOf(cfg.key), InsertionSort(Comparator(cfg), s), v) == WithKey(KeyOf(cfg.key), s, v)
  {
    ComparatorTies(cfg);
    InsertionSortStable(Comparator(cfg), KeyOf(cfg.key), s, v);
  }

  /**
   * Ratings A:3, B:5, C:3 sort to A, C, B ascending and to B, A, C
   * descending: ties keep their order in both directions, so descending is
   * not the reverse of ascending.
   */
  lemma StableExample(a: Trip, b: Trip, c: Trip)
    requires a.rating == 3.0 && b.rating == 5.0 && c.rating == 3.0
    ensures InsertionSort(Comparator(SortConfig(Rating, Ascending)), [a, b, c]) == [a, c, b]
    ensures InsertionSort(Comparator(SortConfig(Rating, Descending)), [a, b, c]) == [b, a, c]
  {
    var asc, desc := SortConfig(Rating, Ascending), SortConfig(Rating, Descending);
    assert [a, b, c][..2] == [a, b] && [a, b][..1] == [a] && [a][..0] == [];
    assert InsertionSort(Comparator(asc), [a]) == [a];
    assert InsertionSort(Comparator(asc), [a, b]) == [a, b];
    assert Insert(Comparator(asc), [a], c) == [a, c];
    assert InsertionSort(Comparator(desc), [a]) == [a];
    assert GoesAfter(desc, a, b);
    assert Insert(Comparator(desc), [a], b) == [b, a];
    assert InsertionSort(Comparator(desc), [a, b]) == [b, a];
    assert Insert(Comparator(desc), [b, a], c) == [b, a, c];
  }

  /** The sorted, filtered list holds each trip the filters admit as often as the fetched list does, and no other. */
  lemma SortedCount(filters: Filters, allTrips: seq<Trip>, cfg: SortConfig, t: Trip)
    ensures multiset(InsertionSort(Comparator(cfg), FilterTrips(filters, allTrips)))[t] ==
      if Admits(filters, t) then multiset(allTrips)[t] else 0
  {
    InsertionSortPermutes(Comparator(cfg), FilterTrips(filters, allTrips));
    FilterTripsMeaning(filters, allTrips, t);
  }

  /**
   * The page's derived list: copy the fetched trips, filter the copy, sort it.
   * The result holds exactly the trips every active filter admits, ordered by
   * the key when no compared value is NaN, ties in their fetched order.
   */
  method FilterAndSort(allTrips: seq<Trip>, filters: Filters, cfg: SortConfig) returns (shown: seq<Trip>)
    ensures shown == InsertionSort(Comparator(cfg), FilterTrips(filters, allTrips))
    ensures forall t :: multiset(shown)[t] == if Admits(filters, t) then multiset(allTrips)[t] else 0
    ensures Comparable(cfg.key, FilterTrips(filters, allTrips)) ==> Ordered(cfg, shown)
    ensures forall v :: WithKey(KeyOf(cfg.key), shown, v) == WithKey(KeyOf(cfg.key), FilterTrips(filters, allTrips), v)
  {
    var processed := FilterTrips(filters, allTrips);
    var a := new Trip[|processed|](i requires 0 <= i < |processed| => processed[i]);
    assert a[..] == processed;
    SortInPlace(a, Comparator(cfg));
    shown := a[..];
    forall t ensures multiset(shown)[t] == if Admits(filters, t) then multiset(allTrips)[t] else 0 {
      SortedCount(filters, allTrips, cfg, t);
    }
    if Comparable(cfg.key, processed) {
      InsertionSortOrdered(cfg, processed);
    }
    forall v ensures WithKey(KeyOf(cfg.key), shown, v) == WithKey(KeyOf(cfg.key), processed, v) {
      SortKeepsTies(cfg, processed, v);
    }
  }

  /** With no filter set the page shows every fetched trip, only reordered. */
  lemma UnfilteredIsPermutation(allTrips: seq<Trip>, cfg: SortConfig)
    ensures multiset(InsertionSort(Comparator(cfg), FilterTrips(InitialFilters, allTrips))) == multiset(allTrips)
  {
    NoFilterKeepsAll(allTrips);
    InsertionSortPermutes(Comparator(cfg), allTrips);
  }

  /** The page's sort and filter state. */
  class TripsPage {
    var sortConfig: SortConfig
    var filters: Filters

    constructor ()
      ensures sortConfig == InitialSort && filters == InitialFilters
    {
      sortConfig := InitialSort;
      filters := InitialFilters;
    }

    /** `handleSort(key)`. */
    method HandleSort(key: SortField)
      modifies this
      ensures sortConfig == NextSort(old(sortConfig), key)
      ensures filters == old(filters)
    {
      var direction := Ascending;
      if sortConfig.key == key && sortConfig.direction == Ascending {
        direction := Descending;
      }
      sortConfig := SortConfig(key, direction);
    }

    /** `handleFilterChange` for the input called `name`. */
    method HandleFilterChange(name: FilterName, value: string)
      modifies this
      ensures filters == WithFilter(old(filters), name, value)
      ensures sortConfig == old(sortConfig)
    {
      filters := WithFilter(filters, name, value);
    }

    /** `filteredAndSortedTrips`, recomputed from the current state. */
    method FilteredAndSortedTrips(allTrips: seq<Trip>) returns (shown: seq<Trip>)
      ensures shown == InsertionSort(Comparator(sortConfig), FilterTrips(filters, allTrips))
    {
      shown := FilterAndSort(allTrips, filters, sortConfig);
    }
  }
}
