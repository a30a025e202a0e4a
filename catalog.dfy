/** The public catalog page: a fixed list of cars, three filters (search, category,
    price range) and a sort key, applied when the visitor presses "apply". */
module Catalog {
  import opened Wrappers
  import opened Text
  import opened Seqs
  import opened Sorting

  /** A catalog entry, with the fields the filters and the sort read (the image, feature
      list, gearbox and fuel are only rendered). The rating is kept in tenths (4.8 is 48):
      it is only compared. */
  datatype Car = Car(
    id: int, name: string, category: string, price: int, description: string,
    rating: int, year: int)

  /** The page's static list of cars. */
  const CarsData: seq<Car> :=
    [ Car(1, "Toyota Camry", "Седан", 2500,
          "Комфортный седан для ежедневных поездок и бизнеса", 48, 2022),
      Car(2, "BMW X5", "Внедорожник", 5000,
          "Премиальный внедорожник для комфортных путешествий", 49, 2023),
      Car(3, "Mercedes-Benz E-Class", "Бизнес-класс", 4500,
          "Элегантный автомобиль бизнес-класса с высоким уровнем комфорта", 47, 2022),
      Car(4, "Volkswagen Golf", "Хэтчбек", 1800,
          "Компактный городской автомобиль с отличной динамикой и экономичностью", 45, 2021),
      Car(5, "Audi Q7", "Внедорожник", 6000,
          "Просторный и мощный внедорожник премиум-класса для семейных поездок", 49, 2023),
      Car(6, "Kia Rio", "Седан", 1200,
          "Экономичный и надежный автомобиль для города", 43, 2021)
    ]

  /** The filter controls: search text, category ("all" for none), price slider, sort key. */
  datatype Filters = Filters(searchTerm: string, categoryFilter: string, priceRange: (int, int), sortBy: string)

  /** The controls' initial values, which "reset" restores. */
  const DefaultFilters := Filters("", "all", (0, 10000), "recommended")

  // ---- the three filter predicates ----

  predicate MatchesSearch(car: Car, term: string) {
    Contains(Lower(car.name), Lower(term)) || Contains(Lower(car.description), Lower(term))
  }

  predicate InPriceRange(car: Car, range: (int, int)) {
    car.price >= range.0 && car.price <= range.1
  }

  function SearchPred(term: string): Car -> bool { car => MatchesSearch(car, term) }
  function CategoryPred(category: string): Car -> bool { (car: Car) => car.category == category }
  function PricePred(range: (int, int)): Car -> bool { car => InPriceRange(car, range) }

  /** What a car must satisfy to be shown: the search only when the term is non-empty,
      the category only when it is not "all", the price range always. */
  predicate Passes(f: Filters, car: Car) {
    && (f.searchTerm == "" || MatchesSearch(car, f.searchTerm))
    && (f.categoryFilter == "all" || car.category == f.categoryFilter)
    && InPriceRange(car, f.priceRange)
  }

  function PassesPred(f: Filters): Car -> bool { car => Passes(f, car) }

  // ---- the pipeline, stage by stage ----

  function BySearch(cars: seq<Car>, term: string): seq<Car> {
    if term != "" then Filter(cars, SearchPred(term)) else cars
  }

  function ByCategory(cars: seq<Car>, category: string): seq<Car> {
    if category != "all" then Filter(cars, CategoryPred(category)) else cars
  }

  /** The three stages: a car survives exactly when it is in the list and passes all three. */
  function Filtered(cars: seq<Car>, f: Filters): (r: seq<Car>)
    ensures |r| <= |cars|
    ensures forall car :: car in r <==> car in cars && Passes(f, car)
  {
    Filter(ByCategory(BySearch(cars, f.searchTerm), f.categoryFilter), PricePred(f.priceRange))
  }

  /** The four sort keys the page knows; any other key keeps the order. */
  datatype SortOrder = PriceAsc | PriceDesc | RatingDesc | YearDesc

  /** Exactly the four option values of the sort selector are recognised, each naming its
      own order. */
  function ParseSort(sortBy: string): (r: Option<SortOrder>)
    ensures r.Some? <==> sortBy in {"price-asc", "price-desc", "rating", "newest"}
    ensures r == Some(PriceAsc) <==> sortBy == "price-asc"
    ensures r == Some(PriceDesc) <==> sortBy == "price-desc"
    ensures r == Some(RatingDesc) <==> sortBy == "rating"
    ensures r == Some(YearDesc) <==> sortBy == "newest"
  {
    match sortBy
    case "price-asc" => Some(PriceAsc)
    case "price-desc" => Some(PriceDesc)
    case "rating" => Some(RatingDesc)
    case "newest" => Some(YearDesc)
    case _ => None
  }

  /** The comparators `a.price - b.price`, `b.price - a.price`, `b.rating - a.rating` and
      `b.year - a.year` all sort ascending by this rank. */
  function Rank(order: SortOrder, car: Car): int {
    match order
    case PriceAsc => car.price
    case PriceDesc => -car.price
    case RatingDesc => -car.rating
    case YearDesc => -car.year
  }

  /** The page's comparator for each key; a negative value puts a before b. */
  function Compare(order: SortOrder, a: Car, b: Car): (c: int)
    ensures c < 0 <==> Rank(order, a) < Rank(order, b)
    ensures c == 0 <==> Rank(order, a) == Rank(order, b)
  {
    match order
    case PriceAsc => a.price - b.price
    case PriceDesc => b.price - a.price
    case RatingDesc => b.rating - a.rating
    case YearDesc => b.year - a.year
  }

  function RankOf(order: SortOrder): Car -> int { car => Rank(order, car) }

  /** The list the page shows after "apply" with filters f over the list cars. */
  function Query(cars: seq<Car>, f: Filters): (r: seq<Car>)
    ensures |r| <= |cars|
    ensures forall car :: car in r <==> car in cars && Passes(f, car)
  {
    var r := Filtered(cars, f);
    match ParseSort(f.sortBy)
    case None => r
    case Some(order) =>
      SortByPermutes(r, RankOf(order));
      assert forall car :: car in SortBy(r, RankOf(order)) <==> car in multiset(r);
      SortBy(r, RankOf(order))
  }

  // ---- properties of the query ----

  /** The three stages together are one filter by Passes, so the filtered list keeps the input order. */
  lemma FilteredIsOneFilter(cars: seq<Car>, f: Filters)
    ensures Filtered(cars, f) == Filter(cars, PassesPred(f))
  {
    var term, category := f.searchTerm, f.categoryFilter;
    var p1: Car -> bool := (car: Car) => term == "" || MatchesSearch(car, term);
    var p2: Car -> bool := (car: Car) => category == "all" || car.category == category;
    var p12: Car -> bool := (car: Car) => p1(car) && p2(car);
    var s1 := BySearch(cars, term);
    if term == "" {
      FilterAll(cars, p1);
    } else {
      FilterCongruent(cars, SearchPred(term), p1);
    }
    var s2 := ByCategory(s1, category);
    if category == "all" {
      FilterAll(s1, p2);
    } else {
      FilterCongruent(s1, CategoryPred(category), p2);
    }
    FilterFilter(cars, p1, p2, p12);
    assert s2 == Filter(cars, p12);
    assert forall car :: PassesPred(f)(car) == (p12(car) && PricePred(f.priceRange)(car));
    FilterFilter(cars, p12, PricePred(f.priceRange), PassesPred(f));
  }

  /** Sorting by a known key only reorders: the result is a permutation of the filtered list. */
  lemma QueryPermutes(cars: seq<Car>, f: Filters)
    ensures multiset(Query(cars, f)) == multiset(Filter(cars, PassesPred(f)))
  {
    FilteredIsOneFilter(cars, f);
    match ParseSort(f.sortBy) {
      case None =>
      case Some(order) => SortByPermutes(Filtered(cars, f), RankOf(order));
    }
  }

  /** Every car shown is in the input, and no more often than there. */
  lemma QueryDrawsFromInput(cars: seq<Car>, f: Filters)
    ensures multiset(Query(cars, f)) <= multiset(cars)
    ensures forall car :: car in Query(cars, f) ==> car in cars
  {
    QueryPermutes(cars, f);
    FilterSubMultiset(cars, PassesPred(f));
    assert forall car :: car in Query(cars, f) ==> car in multiset(Query(cars, f));
  }

  /** Soundness: every car shown passes the price range (both ends included), the category
      unless it is "all", and the search unless the term is empty. */
  lemma QueryRespectsFilters(cars: seq<Car>, f: Filters, car: Car)
    requires car in Query(cars, f)
    ensures f.priceRange.0 <= car.price <= f.priceRange.1
    ensures f.categoryFilter != "all" ==> car.category == f.categoryFilter
    ensures f.searchTerm != "" ==>
      Contains(Lower(car.name), Lower(f.searchTerm)) || Contains(Lower(car.description), Lower(f.searchTerm))
  {
    QueryPermutes(cars, f);
    assert car in multiset(Query(cars, f));
    assert car in Filter(cars, PassesPred(f));
    assert Passes(f, car);
  }

  /** Completeness: every input car that passes all three filters is shown. */
  lemma QueryComplete(cars: seq<Car>, f: Filters, car: Car)
    requires car in cars && Passes(f, car)
    ensures car in Query(cars, f)
  {
    QueryPermutes(cars, f);
    assert PassesPred(f)(car);
    assert car in Filter(cars, PassesPred(f));
    assert car in multiset(Query(cars, f));
  }

  /** With a known sort key the result is ordered by that key's rank. */
  lemma QuerySortedByRank(cars: seq<Car>, f: Filters, order: SortOrder)
    requires ParseSort(f.sortBy) == Some(order)
    ensures forall i, j :: 0 <= i < j < |Query(cars, f)| ==> Rank(order, Query(cars, f)[i]) <= Rank(order, Query(cars, f)[j])
  {
    var r := Query(cars, f);
    SortBySorted(Filtered(cars, f), RankOf(order));
    assert Sorted(r, RankOf(order));
    forall i, j | 0 <= i < j < |r| ensures Rank(order, r[i]) <= Rank(order, r[j]) {
      assert RankOf(order)(r[i]) <= RankOf(order)(r[j]);
    }
  }

  /** The four known keys ("price-asc", "price-desc", "rating", "newest") order the result by
      price up, price down, rating down and year down. */
  lemma QueryOrdered(cars: seq<Car>, f: Filters)
    ensures ParseSort(f.sortBy) == Some(PriceAsc) ==>
      forall i, j :: 0 <= i < j < |Query(cars, f)| ==> Query(cars, f)[i].price <= Query(cars, f)[j].price
    ensures ParseSort(f.sortBy) == Some(PriceDesc) ==>
      forall i, j :: 0 <= i < j < |Query(cars, f)| ==> Query(cars, f)[i].price >= Query(cars, f)[j].price
    ensures ParseSort(f.sortBy) == Some(RatingDesc) ==>
      forall i, j :: 0 <= i < j < |Query(cars, f)| ==> Query(cars, f)[i].rating >= Query(cars, f)[j].rating
    ensures ParseSort(f.sortBy) == Some(YearDesc) ==>
      forall i, j :: 0 <= i < j < |Query(cars, f)| ==> Query(cars, f)[i].year >= Query(cars, f)[j].year
  {
    match ParseSort(f.sortBy)
    case None =>
    case Some(order) =>
      QuerySortedByRank(cars, f, order);
  }

  /** Ties keep their input order: for every rank value, the cars with that rank appear in
      the order they have in the filtered list. */
  lemma QueryStable(cars: seq<Car>, f: Filters, order: SortOrder, k: int)
    requires ParseSort(f.sortBy) == Some(order)
    ensures WithKey(Query(cars, f), RankOf(order), k) == WithKey(Filter(cars, PassesPred(f)), RankOf(order), k)
  {
    FilteredIsOneFilter(cars, f);
    SortByStable(Filtered(cars, f), RankOf(order), k);
  }

  /** Any other key shows the passing cars in input order. */
  lemma QueryUnknownKeyKeepsOrder(cars: seq<Car>, f: Filters)
    requires ParseSort(f.sortBy) == None
    ensures Query(cars, f) == Filter(cars, PassesPred(f))
  {
    FilteredIsOneFilter(cars, f);
  }

  /** "recommended", the initial key, is one of those keys. */
  lemma RecommendedKeepsOrder(cars: seq<Car>, f: Filters)
    requires f.sortBy == "recommended"
    ensures Query(cars, f) == Filter(cars, PassesPred(f))
  {
    assert ParseSort(f.sortBy) == None;
    QueryUnknownKeyKeepsOrder(cars, f);
  }

  /** Applying the same filters to their own result changes nothing. */
  lemma QueryIdempotent(cars: seq<Car>, f: Filters)
    ensures Query(Query(cars, f), f) == Query(cars, f)
  {
    var r := Query(cars, f);
    FilteredIsOneFilter(cars, f);
    FilteredIsOneFilter(r, f);
    assert forall car :: car in r ==> Passes(f, car) by {
      forall car | car in r ensures Passes(f, car) {
        QueryRespectsFilters(cars, f, car);
      }
    }
    FilterAll(r, PassesPred(f));
    match ParseSort(f.sortBy)
    case None =>
    case Some(order) =>
      SortBySorted(Filtered(cars, f), RankOf(order));
      SortBySortedIsIdentity(r, RankOf(order));
  }

  /** With the reset values every car of the static list passes, in order: the reset
      state's list is what "apply" would show. */
  lemma ResetShowsWholeCatalog()
    ensures Query(CarsData, DefaultFilters) == CarsData
  {
    CatalogPricesInSliderRange();
    DefaultFiltersKeepSliderRange(CarsData);
  }

  lemma CatalogPricesInSliderRange()
    ensures forall car :: car in CarsData ==> 0 <= car.price <= 10000
  {
  }

  /** With the reset values, a list whose prices all lie on the slider is shown unchanged. */
  lemma DefaultFiltersKeepSliderRange(cars: seq<Car>)
    requires forall car :: car in cars ==> 0 <= car.price <= 10000
    ensures Query(cars, DefaultFilters) == cars
  {
    forall car | car in cars ensures PassesPred(DefaultFilters)(car) {
    }
    FilteredIsOneFilter(cars, DefaultFilters);
    FilterAll(cars, PassesPred(DefaultFilters));
    assert ParseSort(DefaultFilters.sortBy) == None;
  }

  /** The body of `applyFilters` over the list source: filters stage by stage, copies the
      result into an array and sorts it there in place when the key is a known one. */
  method RunQuery(source: seq<Car>, f: Filters) returns (result: seq<Car>)
    ensures result == Query(source, f)
  {
    var filteredCars := source;
    if f.searchTerm != "" {
      filteredCars := Filter(filteredCars, SearchPred(f.searchTerm));
    }
    if f.categoryFilter != "all" {
      filteredCars := Filter(filteredCars, CategoryPred(f.categoryFilter));
    }
    filteredCars := Filter(filteredCars, PricePred(f.priceRange));
    var buffer := new Car[|filteredCars|](i requires 0 <= i < |filteredCars| => filteredCars[i]);
    assert buffer[..] == filteredCars;
    match ParseSort(f.sortBy) {
      case Some(order) => SortInPlace(buffer, RankOf(order));
      case None =>
    }
    result := buffer[..];
  }

  /** The page's state: the filter controls and the list on display. The controls are
      written by the inputs; the list only changes on "apply" and "reset". */
  class CatalogPage {
    var searchTerm: string
    var categoryFilter: string
    var priceRange: (int, int)
    var sortBy: string
    var cars: seq<Car>

    function Current(): Filters
      reads this
    {
      Filters(searchTerm, categoryFilter, priceRange, sortBy)
    }

    constructor ()
      ensures Current() == DefaultFilters && cars == CarsData
    {
      searchTerm, categoryFilter, priceRange, sortBy := "", "all", (0, 10000), "recommended";
      cars := CarsData;
    }

    /** The search box. */
    method SetSearchTerm(term: string)
      modifies this`searchTerm
      ensures searchTerm == term
    {
      searchTerm := term;
    }

    /** The category selector. */
    method SetCategoryFilter(category: string)
      modifies this`categoryFilter
      ensures categoryFilter == category
    {
      categoryFilter := category;
    }

    /** The price slider. */
    method SetPriceRange(range: (int, int))
      modifies this`priceRange
      ensures priceRange == range
    {
      priceRange := range;
    }

    /** The sort selector: records the key, the list is not re-sorted until "apply". */
    method SetSortBy(key: string)
      modifies this`sortBy
      ensures sortBy == key
    {
      sortBy := key;
    }

    /** `applyFilters`: runs the pipeline over a copy of the static list and puts the
        result on display; the filter controls are left as they are. */
    method ApplyFilters()
      modifies this`cars
      ensures cars == Query(CarsData, Current())
    {
      cars := RunQuery(CarsData, Current());
    }

    /** `resetFilters`: every control back to its initial value and the whole list shown. */
    method ResetFilters()
      modifies this
      ensures Current() == DefaultFilters && cars == CarsData
    {
      searchTerm, categoryFilter, priceRange, sortBy := "", "all", (0, 10000), "recommended";
      cars := CarsData;
    }
  }
}
