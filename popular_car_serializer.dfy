/** `PopularCarSerializer`: the number of rates stored for a car. */
module PopularCarSerializer {
  import opened Rates
  import CarSerializer

  /** `get_total_rates`: the count of the car's group in
      `filter(car_id=...).values('car').annotate(Count('car'))`, or 0 when
      the query has no row. */
  function GetTotalRates(records: seq<Rate>, car: CarId): (n: nat)
    ensures n <= |records|
    ensures n == 0 <==> forall i :: 0 <= i < |records| ==> records[i].car != car
  {
    var rates := RatesFor(records, car);
    if rates != [] then |rates| else 0
  }

  /** The count is the number of records referring to `car`. */
  lemma GetTotalRatesCounts(records: seq<Rate>, car: CarId)
    ensures GetTotalRates(records, car) == multiset(CarsOf(records))[car]
  {
    RatesForCount(records, car);
  }

  /** Storing one more rate raises the count of its car by one and leaves
      every other car's count alone. */
  lemma GetTotalRatesAfterStore(records: seq<Rate>, rate: Rate, car: CarId)
    ensures GetTotalRates(records + [rate], car)
         == GetTotalRates(records, car) + (if rate.car == car then 1 else 0)
  {
    RatesForAppend(records, [rate], car);
  }

  /** The order in which the database returns the rows does not matter. */
  lemma GetTotalRatesIgnoresRowOrder(a: seq<Rate>, b: seq<Rate>, car: CarId)
    requires multiset(a) == multiset(b)
    ensures GetTotalRates(a, car) == GetTotalRates(b, car)
  {
    RatesForPermutation(a, b, car);
    assert |RatesFor(a, car)| == |multiset(RatesFor(a, car))|;
    assert |RatesFor(b, car)| == |multiset(RatesFor(b, car))|;
  }

  /** The count of a car is the number of scores its rating averages over,
      so a car has no rating exactly when its count is 0. */
  lemma GetTotalRatesIsRatingDenominator(records: seq<Rate>, car: CarId)
    ensures CarSerializer.GetAvgRate(records, car).NoRates? <==> GetTotalRates(records, car) == 0
    ensures GetTotalRates(records, car) == |RatesFor(records, car)|
  {
  }
}
