/** The admin dashboard's car table: deletion after a confirmation prompt, the availability
    toggle on each row, and the available/unavailable counters. */
module Dashboard {
  import opened Wrappers
  import opened Seqs

  /** A car of the admin API as the dashboard shows it; `isAvailable` is optional. */
  datatype Car = Car(
    id: int, name: string, category: string, price: int, image: string, year: int,
    transmission: string, fuel: string, isAvailable: Option<bool>)

  /** `car.isAvailable` read as a condition: a missing value is falsy. */
  predicate IsAvailable(car: Car) {
    car.isAvailable == Some(true)
  }

  function Available(): Car -> bool {
    (car: Car) => IsAvailable(car)
  }

  function Unavailable(): Car -> bool {
    (car: Car) => !IsAvailable(car)
  }

  function AvailableCount(cars: seq<Car>): nat {
    |Filter(cars, Available())|
  }

  function UnavailableCount(cars: seq<Car>): nat {
    |Filter(cars, Unavailable())|
  }

  /** The two counters always add up to the total counter. */
  lemma CountsAddUp(cars: seq<Car>)
    ensures AvailableCount(cars) + UnavailableCount(cars) == |cars|
  {
    FilterSplitLength(cars, Available(), Unavailable());
  }

  function IdIsNot(id: int): Car -> bool {
    (car: Car) => car.id != id
  }

  /** `cars.filter(car => car.id !== id)`. */
  function Delete(cars: seq<Car>, id: int): (r: seq<Car>)
    ensures multiset(r) <= multiset(cars)
    ensures forall car :: car in r <==> car in cars && car.id != id
    ensures forall car: Car :: car.id != id ==> multiset(r)[car] == multiset(cars)[car]
  {
    FilterSubMultiset(cars, IdIsNot(id));
    FilterCounts(cars, IdIsNot(id));
    Filter(cars, IdIsNot(id))
  }

  /** Deleting an id that is not listed keeps the list as it is. */
  lemma DeleteAbsentId(cars: seq<Car>, id: int)
    requires forall car :: car in cars ==> car.id != id
    ensures Delete(cars, id) == cars
  {
    FilterAll(cars, IdIsNot(id));
  }

  /** `cars.map(car => car.id === id ? { ...car, isAvailable: !currentStatus } : car)`. */
  function Toggle(cars: seq<Car>, id: int, currentStatus: bool): (r: seq<Car>)
    ensures |r| == |cars|
    ensures forall i :: 0 <= i < |cars| && cars[i].id != id ==> r[i] == cars[i]
    ensures forall i :: 0 <= i < |cars| && cars[i].id == id ==> r[i] == cars[i].(isAvailable := Some(!currentStatus))
  {
    seq(|cars|, i requires 0 <= i < |cars| =>
      if cars[i].id == id then cars[i].(isAvailable := Some(!currentStatus)) else cars[i])
  }

  /** The row's toggle button, which passes `car.isAvailable || false` as the current status. */
  function ClickToggle(cars: seq<Car>, i: nat): (r: seq<Car>)
    requires i < |cars|
    ensures |r| == |cars|
    ensures r[i].isAvailable == Some(!IsAvailable(cars[i]))
    ensures cars[i].isAvailable.None? ==> IsAvailable(r[i])
  {
    Toggle(cars, cars[i].id, IsAvailable(cars[i]))
  }

  /** Two clicks on the same row give back the row's availability; a row that had a value
      gets exactly its old record back, and rows with other ids are never touched. */
  lemma ToggleTwiceRestores(cars: seq<Car>, i: nat)
    requires i < |cars|
    ensures IsAvailable(ClickToggle(ClickToggle(cars, i), i)[i]) == IsAvailable(cars[i])
    ensures cars[i].isAvailable.Some? ==> ClickToggle(ClickToggle(cars, i), i)[i] == cars[i]
    ensures forall j :: 0 <= j < |cars| && cars[j].id != cars[i].id ==> ClickToggle(ClickToggle(cars, i), i)[j] == cars[j]
  {
    var once := ClickToggle(cars, i);
    assert once[i].id == cars[i].id;
    var twice := ClickToggle(once, i);
    assert twice[i] == cars[i].(isAvailable := Some(IsAvailable(cars[i])));
    if cars[i].isAvailable.Some? {
      var b := cars[i].isAvailable.value;
      assert cars[i].isAvailable == Some(b);
      assert IsAvailable(cars[i]) == b;
    }
  }

  /** The cars the mock request returns. */
  const MockCarsData: seq<Car> :=
    [ Car(1, "Toyota Camry", "Седан", 2500,
          "https://images.unsplash.com/photo-1621007947382-bb3c3994e3fb?q=80&w=2070", 2022,
          "Автомат", "Бензин", Some(true)),
      Car(2, "BMW X5", "Внедорожник", 5000,
          "https://images.unsplash.com/photo-1571127236794-81c0bbfe1ce3?q=80&w=2071", 2023,
          "Автомат", "Дизель", Some(true)),
      Car(3, "Mercedes-Benz E-Class", "Бизнес-класс", 4500,
          "https://images.unsplash.com/photo-1549925862-990918131467?q=80&w=2070", 2022,
          "Автомат", "Бензин", Some(false)) ]

  /** The dashboard's state. */
  class DashboardPage {
    var cars: seq<Car>
    var loading: bool
    var selectedTab: string

    constructor ()
      ensures cars == [] && loading && selectedTab == "cars"
    {
      cars := [];
      loading := true;
      selectedTab := "cars";
    }

    /** The load effect: the mock request always succeeds with the mock cars. */
    method FetchCars()
      modifies this`cars, this`loading
      ensures cars == MockCarsData && !loading
    {
      loading := true;
      cars := MockCarsData;
      loading := false;
    }

    /** `handleDeleteCar`: nothing unless the prompt is confirmed. */
    method HandleDeleteCar(id: int, confirmed: bool)
      modifies this`cars
      ensures cars == if confirmed then Delete(old(cars), id) else old(cars)
    {
      if confirmed {
        cars := Delete(cars, id);
      }
    }

    /** `handleToggleAvailability`. */
    method HandleToggleAvailability(id: int, currentStatus: bool)
      modifies this`cars
      ensures cars == Toggle(old(cars), id, currentStatus)
    {
      cars := Toggle(cars, id, currentStatus);
    }

    /** The counters shown above the table. */
    function Counters(): (int, int, int)
      reads this
    {
      (|cars|, AvailableCount(cars), UnavailableCount(cars))
    }
  }
}
