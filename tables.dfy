/** The two input tables: the car catalog and the rating log. */
module Tables {
  import opened Wrappers

  type CarId = int
  type UserId = int

  /** A catalog row: `carID`, `Make Model Year` and `Features` (missing when the cell is empty). */
  datatype Car = Car(id: CarId, title: string, features: Option<string>)

  /** A rating row: `userID`, `carID`, `Rating`. */
  datatype Rating = Rating(user: UserId, car: CarId, value: real)

  /** The `carID` column. */
  function CarIds(cars: seq<Car>): seq<CarId>
  {
    seq(|cars|, i requires 0 <= i < |cars| => cars[i].id)
  }

  /** `fillna('')` on the `Features` column. */
  function FillFeatures(cars: seq<Car>): (r: seq<Car>)
    ensures |r| == |cars|
    ensures forall i :: 0 <= i < |cars| ==>
      && r[i].id == cars[i].id && r[i].title == cars[i].title
      && r[i].features == Some(if cars[i].features.Some? then cars[i].features.value else "")
  {
    seq(|cars|, i requires 0 <= i < |cars| =>
      cars[i].(features := Some(if cars[i].features.Some? then cars[i].features.value else "")))
  }
}
