/** `CarSerializer`: the derived `rating` of a car and the validators of
    its make and model names against the vehicle catalogue's results. */
module CarSerializer {
  import opened Validation
  import opened Rates
  import opened Rounding
  import opened Arith
  import opened Search
  import opened Casing
  import RateSerializer

  /** What `get_avg_rate` returns: the integer `0` when the car has no
      rates, and otherwise the float `halfPoints / 2`. */
  datatype Rating = NoRates | HalfPoints(halfPoints: int) {
    function Value(): (v: real)
      ensures NoRates? ==> v == 0.0
      ensures HalfPoints? ==> 2.0 * v == halfPoints as real
    {
      if NoRates? then 0.0 else halfPoints as real / 2.0
    }
  }

  /** The average of a car's scores rounded to the nearest half point:
      `round(sum / n * 2) / 2`, with Python's half-to-even `round` on the
      doubled mean `2 * sum / n`. */
  function AvgRate(rates: seq<int>): (r: Rating)
    ensures r.NoRates? <==> rates == []
    ensures r.HalfPoints? ==> IsRoundHalfEven(2 * Sum(rates), |rates|, r.halfPoints)
  {
    if rates != [] then HalfPoints(RoundHalfEven(2 * Sum(rates), |rates|)) else NoRates
  }

  /** `get_avg_rate`: the rounded average of the scores stored for `car`. */
  function GetAvgRate(records: seq<Rate>, car: CarId): (r: Rating)
    ensures r.NoRates? <==> forall i :: 0 <= i < |records| ==> records[i].car != car
    ensures r.HalfPoints? ==>
      var rates := RatesFor(records, car);
      IsRoundHalfEven(2 * Sum(rates), |rates|, r.halfPoints)
  {
    AvgRate(RatesFor(records, car))
  }

  /** The rounded average is the half point nearest to the mean: no
      other half point `j / 2` is closer to `sum / n`. */
  lemma AvgRateNearest(rates: seq<int>, j: int)
    requires rates != []
    ensures var h := AvgRate(rates).halfPoints;
      Abs(2 * Sum(rates) - h * |rates|) <= Abs(2 * Sum(rates) - j * |rates|)
  {
    var num, den, h := 2 * Sum(rates), |rates|, AvgRate(rates).halfPoints;
    assert WithinHalf(num, den, h);
    NearestOf(num, den, h, j);
  }

  /** As reals: the returned value differs from the mean by at most 1/4. */
  lemma AvgRateValueNearMean(rates: seq<int>)
    requires rates != []
    ensures var mean := Sum(rates) as real / |rates| as real;
      -0.25 <= AvgRate(rates).Value() - mean <= 0.25
  {
    var k := AvgRate(rates).halfPoints;
    QuarterPoint(Sum(rates), |rates|, k);
  }

  /** `-n <= 2 * (2s - kn) <= n` holds exactly when `|k / 2 - s / n| <= 1/4`
      over the reals. */
  lemma QuarterPoint(s: int, n: int, k: int)
    requires n > 0
    ensures WithinHalf(2 * s, n, k) <==> -0.25 <= k as real / 2.0 - s as real / n as real <= 0.25
  {
    var e := 2 * s - k * n;
    assert WithinHalf(2 * s, n, k) <==> -n <= 2 * e <= n;
    CastMul(k, n);
    assert e as real == 2.0 * (s as real) - k as real * n as real;
    assert (-n <= 2 * e <= n) <==> (-(n as real) <= 2.0 * (e as real) <= n as real);
    RealQuarter(s as real, n as real, k as real);
  }

  lemma RealQuarter(s: real, n: real, k: real)
    requires n > 0.0
    ensures (-n <= 2.0 * (2.0 * s - k * n) <= n) <==> (-0.25 <= k / 2.0 - s / n <= 0.25)
  {
    var diff := k / 2.0 - s / n;
    Distribute(k / 2.0, s / n, n);
    DivMul(s, n);
    HalfMul(k, n);
    assert diff * n == k * n / 2.0 - s;
    if -n <= 2.0 * (2.0 * s - k * n) <= n {
      QuarterOf(diff, n);
    }
    if -0.25 <= diff <= 0.25 {
      QuarterScaled(diff, n);
    }
  }

  /** The rounded average of a non-empty list lies between its smallest
      and its largest score. */
  lemma AvgRateBetween(rates: seq<int>)
    requires rates != []
    ensures 2 * Min(rates) <= AvgRate(rates).halfPoints <= 2 * Max(rates)
    ensures Min(rates) as real <= AvgRate(rates).Value() <= Max(rates) as real
  {
    var n, s, lo, hi := |rates|, Sum(rates), Min(rates), Max(rates);
    SumBounds(rates, lo, hi);
    DoubleBounds(n, s, lo, hi);
    RoundHalfEvenBetween(2 * s, n, 2 * lo, 2 * hi);
  }

  /** Scores that all passed `validate_rate` give a rating in `[0, 5]`. */
  lemma AvgRateOfValidRates(rates: seq<int>)
    requires forall i :: 0 <= i < |rates| ==> RateSerializer.ValidateRate(rates[i]).Ok?
    ensures 0.0 <= AvgRate(rates).Value() <= 5.0
    ensures AvgRate(rates).HalfPoints? ==> 0 <= AvgRate(rates).halfPoints <= 10
  {
    if rates != [] {
      AvgRateBetween(rates);
    }
  }

  /** A car whose every stored rate passed validation is rated in `[0, 5]`;
      rows of other cars are not constrained. */
  lemma GetAvgRateInRange(records: seq<Rate>, car: CarId)
    requires forall i :: 0 <= i < |records| && records[i].car == car ==> RateSerializer.ValidateRate(records[i].rate).Ok?
    ensures 0.0 <= GetAvgRate(records, car).Value() <= 5.0
  {
    var rates := RatesFor(records, car);
    forall i | 0 <= i < |rates|
      ensures RateSerializer.ValidateRate(rates[i]).Ok?
    {
      RatesForMembers(records, car, rates[i]);
    }
    AvgRateOfValidRates(rates);
  }

  /** The order of the scores does not matter. */
  lemma AvgRateIgnoresOrder(s: seq<int>, t: seq<int>)
    requires multiset(s) == multiset(t)
    ensures AvgRate(s) == AvgRate(t)
  {
    assert |s| == |multiset(s)| == |multiset(t)| == |t|;
    SumPermutation(s, t);
  }

  /** The order in which the database returns the rows does not matter. */
  lemma GetAvgRateIgnoresRowOrder(a: seq<Rate>, b: seq<Rate>, car: CarId)
    requires multiset(a) == multiset(b)
    ensures GetAvgRate(a, car) == GetAvgRate(b, car)
  {
    RatesForPermutation(a, b, car);
    AvgRateIgnoresOrder(RatesFor(a, car), RatesFor(b, car));
  }

  /** A car whose every score is `v` is rated exactly `v`. */
  lemma {:induction false} AvgRateConstant(rates: seq<int>, v: int)
    requires rates != []
    requires forall i :: 0 <= i < |rates| ==> rates[i] == v
    ensures AvgRate(rates) == HalfPoints(2 * v)
  {
    SumBounds(rates, v, v);
    assert 2 * Sum(rates) == (2 * v) * |rates|;
    RoundHalfEvenExact(2 * v, |rates|);
  }

  /** Worked cases: [4, 5] averages 4.5 and is rated 4.5; [3, 4, 4] averages
      3.67 and is rated 3.5; the tie 1.25 ([1, 1, 1, 2]) goes down to 1.0 and
      the tie 1.75 ([1, 2, 2, 2]) goes up to 2.0. */
  lemma AvgRateExamples()
    ensures AvgRate([4, 5]) == HalfPoints(9)
    ensures AvgRate([3, 4, 4]) == HalfPoints(7)
    ensures AvgRate([1, 1, 1, 2]) == HalfPoints(2)
    ensures AvgRate([1, 2, 2, 2]) == HalfPoints(4)
    ensures AvgRate([]) == NoRates && NoRates.Value() == 0.0
  {
  }

  const MAKE_NOT_FOUND_MESSAGE := "Requested Car Make Not Found."
  const MODEL_NOT_FOUND_MESSAGE := "Requested Car Model Not Found."

  /** An entry of the catalogue's list of makes. */
  datatype MakeItem = MakeItem(makeName: string)

  /** An entry of the catalogue's list of models for one make. */
  datatype ModelItem = ModelItem(modelName: string)

  /** `validate_make_name`: the `Make_Name` of the first result equal to
      the upper-cased input, or the not-found error. */
  function ValidateMakeName(results: seq<MakeItem>, makeName: string): (r: Validated<string>)
    ensures r.Ok? <==> exists i :: 0 <= i < |results| && results[i].makeName == Upper(makeName)
    ensures r.Ok? ==> r.value == Upper(makeName)
    ensures r.ValidationError? ==> r.message == MAKE_NOT_FOUND_MESSAGE
  {
    match FirstMatch(results, (item: MakeItem) => item.makeName == Upper(makeName))
    case None => ValidationError(MAKE_NOT_FOUND_MESSAGE)
    case Some(i) => Ok(results[i].makeName)
  }

  /** `validate_model_name`: the `Model_Name` of the first result equal to
      the input, compared case-sensitively, or the not-found error. */
  function ValidateModelName(results: seq<ModelItem>, modelName: string): (r: Validated<string>)
    ensures r.Ok? <==> exists i :: 0 <= i < |results| && results[i].modelName == modelName
    ensures r.Ok? ==> r.value == modelName
    ensures r.ValidationError? ==> r.message == MODEL_NOT_FOUND_MESSAGE
  {
    match FirstMatch(results, (item: ModelItem) => item.modelName == modelName)
    case None => ValidationError(MODEL_NOT_FOUND_MESSAGE)
    case Some(i) => Ok(results[i].modelName)
  }

  /** The make check ignores case: two inputs with the same upper-casing
      validate alike. */
  lemma ValidateMakeNameIgnoresCase(results: seq<MakeItem>, a: string, b: string)
    requires Upper(a) == Upper(b)
    ensures ValidateMakeName(results, a) == ValidateMakeName(results, b)
  {
  }

  /** A validated make name validates to itself again. */
  lemma ValidateMakeNameIdempotent(results: seq<MakeItem>, makeName: string)
    requires ValidateMakeName(results, makeName).Ok?
    ensures ValidateMakeName(results, ValidateMakeName(results, makeName).value)
         == ValidateMakeName(results, makeName)
  {
    UpperIdempotent(makeName);
  }

  /** The make check never selects a catalogue entry that holds a
      lower-case letter, whatever the input and whatever the other entries. */
  lemma ValidateMakeNameNeedsUpperEntry(results: seq<MakeItem>, makeName: string, i: nat)
    requires i < |results|
    requires exists c :: 0 <= c < |results[i].makeName| && IsLower(results[i].makeName[c])
    ensures results[i].makeName != Upper(makeName)
    ensures FirstMatch(results, (item: MakeItem) => item.makeName == Upper(makeName)) != Some(i)
  {
    var u := Upper(makeName);
    var c :| 0 <= c < |results[i].makeName| && IsLower(results[i].makeName[c]);
    if |u| == |results[i].makeName| {
      assert !IsLower(u[c]);
    }
  }

  /** The model check is case-sensitive: "civic" is not "Civic". */
  lemma ValidateModelNameIsCaseSensitive()
    ensures ValidateModelName([ModelItem("Civic")], "civic") == ValidationError(MODEL_NOT_FOUND_MESSAGE)
    ensures ValidateModelName([ModelItem("Civic")], "Civic") == Ok("Civic")
  {
    assert "Civic" != "civic" by { assert "Civic"[0] != "civic"[0]; }
  }
}
