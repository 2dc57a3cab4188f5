# cars-api serializers: a Dafny model

This project models the logic found in the serializers of a car-rating web
service (`app/car/serializers.py`). The serializers mostly connect the Django
REST Framework, the database and the NHTSA vPIC vehicle catalogue. Beneath
that plumbing sit four small rules, and those rules are what is modelled:

- **`RateSerializer.validate_rate`**: a rate's score passes on unchanged
  when `0 <= rate <= 5`. Otherwise the validator raises a validation error.
- **`CarSerializer.get_avg_rate`**: the `rating` of a car is `0` when it has
  no rates. Otherwise it is `round(sum / n * 2) / 2`, the mean rounded to
  the nearest half point by Python's half-to-even `round`.
- **`PopularCarSerializer.get_total_rates`**: the number of rates stored for
  a car, or `0` when there are none.
- **`CarSerializer.validate_make_name` / `validate_model_name`**: returns the
  first catalogue result whose `Make_Name` equals the upper-cased input, or
  whose `Model_Name` equals the input exactly. When no result matches, the
  validator raises "Requested Car Make Not Found." or "Requested Car Model
  Not Found.".

Everything is a pure function of its inputs:

- The database's `Rate` table is a sequence of `Rate(car, rate)` records.
  `Rates.RatesFor` plays the query `Rate.objects.filter(car_id=car.id)`.
- The catalogue's `Results` list is a sequence of `MakeItem` or `ModelItem`
  values passed in by the caller.
- A validator's outcome is `Validated<T>`: `Ok(value)`, or
  `ValidationError(message)` for a raised `serializers.ValidationError`.

Modules, one per concern of the source file: `Validation` (outcome types),
`Rates` (records, filtering, sums), `Rounding` (Python's `round` on an exact
quotient), `Search` (`next(...)` over a generator), `Casing` (`str.upper`),
`Arith` (small arithmetic facts), and one module per serializer class:
`RateSerializer`, `CarSerializer`, `PopularCarSerializer`.

## Where the documentation and the code disagree

- The docstring of `validate_rate` and its error message both say "1-5".
  The check, however, admits `0`. The model follows the code and accepts
  `[0, 5]`: `ValidateRateBoundaries` proves that `0` is accepted.
  The message is kept verbatim, including its missing "be":
  "Rate value must between 1-5".
## Rounding rule

`get_avg_rate` calls Python 3's `round`, which rounds ties to even rather
than away from zero, and the model does the same. A mean of 1.25 is rated
1.0 and a mean of 1.75 is rated 2.0 (`AvgRateExamples`).

## How the rating is represented

`get_avg_rate` returns the integer `0` when the car has no rates. Otherwise
it returns the float `round(2 * mean) / 2`. The model returns a `Rating`:

- `NoRates` stands for the integer `0`.
- `HalfPoints(h)` stands for the float `h / 2`.

`Rating.Value()` gives the number as a real. The number of half points is
`h = RoundHalfEven(2 * sum, n)`, computed in exact integer arithmetic.

The float computation gives the same `h` for the small `n` at hand:

- Multiplying by 2 is exact in binary floating point.
- A tie occurs only when `4 * sum == n * (2k + 1)`. Then the mean is
  `(2k + 1) / 4`, which is exactly representable.
- Any other doubled mean lies at least `1 / (2n)` away from a half-integer.
  That distance is far more than the rounding error of one division of
  numbers this small.

## Model

| member | source | states |
|---|---|---|
| `RateSerializer.ValidateRate` | app/car/serializers.py:18-22 | accepts exactly when `0 <= rate <= 5`, then returns the score unchanged; otherwise raises the "1-5" message |
| `RateSerializer.ValidateRateBoundaries` | app/car/serializers.py:19-21 | 0 and 5 are accepted although the message says 1-5; -1 and 6 are rejected |
| `Rounding.RoundHalfEven` | app/car/serializers.py:37 | the result is within half a unit of `num / den`, and on an exact tie it is even |
| `Rounding.RoundHalfEvenUnique` | app/car/serializers.py:37 | exactly one integer satisfies that property, so it fully specifies Python's `round` on a quotient |
| `Rounding.OneRoundHalfEven` | app/car/serializers.py:37 | two integers both satisfying the half-even property are equal |
| `Rounding.Apart` | app/car/serializers.py:37 | two distinct integers within half a unit of the quotient are neighbours, and the quotient is a tie for both |
| `Rounding.RoundHalfEvenNearest` | app/car/serializers.py:37 | no integer is closer to `num / den` than the rounded value |
| `Rounding.RoundHalfEvenBetween` | app/car/serializers.py:37 | if `num / den` lies in an integer interval `[lo, hi]`, so does its rounding |
| `Rounding.RoundHalfEvenExact` | app/car/serializers.py:37 | an exact quotient rounds to itself |
| `Rates.RatesFor` | app/car/serializers.py:35 | the filtered scores: no longer than the table, and empty exactly when no record names the car |
| `Rates.RatesForMembers` | app/car/serializers.py:35 | a score is among the filtered scores exactly when some record of the car carries it |
| `Rates.RatesForAppend` | app/car/serializers.py:35 | filtering a concatenated table is concatenating the filtered parts |
| `Rates.RatesForPermutation` | app/car/serializers.py:35 | reordering the table's rows only reorders a car's scores |
| `Rates.RatesForCount` | app/car/serializers.py:69 | the number of scores kept is the number of records whose car is the given car |
| `Rates.Sum` | app/car/serializers.py:37 | the sum of a car's scores, which is what `aggregate(Sum('rate'))` returns on the non-empty rows that `if rates:` guarantees; a single row's score for one row, and `0` for no rows as the identity `SumAppend` needs |
| `Rates.SumAppend` | app/car/serializers.py:37 | the sum of a concatenation is the sum of the parts |
| `Rates.SumPermutation` | app/car/serializers.py:37 | `Sum('rate')` does not depend on the order of the rows |
| `Rates.SumBounds` | app/car/serializers.py:37 | scores within `[lo, hi]` give a sum within `[n * lo, n * hi]` |
| `Search.FirstMatch` | app/car/serializers.py:44-47 | returns the index of the first item satisfying the predicate, with no earlier item satisfying it; `None` (the `StopIteration`) exactly when no item does |
| `Search.FirstMatchPrefix` | app/car/serializers.py:44-45 | items after the first match never change the outcome |
| `Casing.UpperChar` | app/car/serializers.py:45 | the result is never a lower-case letter; lower-case letters move to upper case, other characters are kept |
| `Casing.Upper` | app/car/serializers.py:45 | keeps the length and upper-cases each character |
| `Casing.UpperIdempotent` | app/car/serializers.py:45 | upper-casing twice is upper-casing once |
| `Casing.UpperFixed` | app/car/serializers.py:45 | a string with no lower-case letter is unchanged by upper-casing |
| `CarSerializer.Rating.Value` | app/car/serializers.py:37-39 | the number returned: 0 for no rates, otherwise exactly half the number of half points |
| `CarSerializer.AvgRate` | app/car/serializers.py:36-39 | `NoRates` (the integer 0) exactly for no scores; otherwise the half-even rounding of the doubled mean `2 * sum / n`, in half points |
| `CarSerializer.GetAvgRate` | app/car/serializers.py:33-39 | no rating exactly when no record names the car; otherwise the rounded average of that car's scores |
| `CarSerializer.AvgRateNearest` | app/car/serializers.py:37 | no half point is closer to the mean than the returned one |
| `CarSerializer.AvgRateValueNearMean` | app/car/serializers.py:37 | the returned value lies within 1/4 of the mean, over the reals |
| `CarSerializer.QuarterPoint` | app/car/serializers.py:37 | in both directions: the integer half-point bound holds exactly when `k / 2` is within 1/4 of the mean `s / n` over the reals |
| `CarSerializer.AvgRateBetween` | app/car/serializers.py:37 | a non-empty list's rating lies between its smallest and its largest score |
| `CarSerializer.AvgRateOfValidRates` | app/car/serializers.py:37 | scores that pass `validate_rate` give a rating in `[0, 5]`, i.e. 0 to 10 half points |
| `CarSerializer.GetAvgRateInRange` | app/car/serializers.py:33-39 | a car whose own stored rates all passed validation is rated within `[0, 5]`, whatever the rows of other cars hold |
| `CarSerializer.AvgRateIgnoresOrder` | app/car/serializers.py:37 | the rating depends only on the multiset of scores |
| `CarSerializer.GetAvgRateIgnoresRowOrder` | app/car/serializers.py:35-37 | the order in which the database returns rows does not change a car's rating |
| `CarSerializer.AvgRateConstant` | app/car/serializers.py:37 | a car whose every score is `v` is rated exactly `v` |
| `CarSerializer.AvgRateExamples` | app/car/serializers.py:36-39 | [4,5] is rated 4.5; [3,4,4] is rated 3.5; the ties 1.25 and 1.75 round to 1.0 and 2.0; no rates give 0 |
| `CarSerializer.ValidateMakeName` | app/car/serializers.py:41-48 | succeeds iff some result's `Make_Name` equals the upper-cased input, and then returns that upper-cased name; otherwise raises "Requested Car Make Not Found." |
| `CarSerializer.ValidateMakeNameIgnoresCase` | app/car/serializers.py:45 | two inputs with the same upper-casing validate alike |
| `CarSerializer.ValidateMakeNameIdempotent` | app/car/serializers.py:44-48 | a validated make name validates to itself again |
| `CarSerializer.ValidateMakeNameNeedsUpperEntry` | app/car/serializers.py:44-47 | a catalogue entry holding a lower-case letter never equals the upper-cased input and is never the first match, whatever the other entries |
| `CarSerializer.ValidateModelName` | app/car/serializers.py:50-57 | succeeds iff some result's `Model_Name` equals the input exactly, and then returns the input; otherwise raises "Requested Car Model Not Found." |
| `CarSerializer.ValidateModelNameIsCaseSensitive` | app/car/serializers.py:53-56 | "civic" does not match a result "Civic"; "Civic" does |
| `PopularCarSerializer.GetTotalRates` | app/car/serializers.py:68-73 | at most the table size, and 0 exactly when no record names the car |
| `PopularCarSerializer.GetTotalRatesCounts` | app/car/serializers.py:69-71 | the count is the multiplicity of the car among the records' car references |
| `PopularCarSerializer.GetTotalRatesAfterStore` | app/car/serializers.py:69-71 | storing one more rate adds one to its own car's count and leaves every other car's count unchanged |
| `PopularCarSerializer.GetTotalRatesIgnoresRowOrder` | app/car/serializers.py:69 | the order of the rows does not change the count |
| `PopularCarSerializer.GetTotalRatesIsRatingDenominator` | app/car/serializers.py:68-73 | the count is the number of scores the rating averages over, so a car has no rating exactly when its count is 0 |

## Left out

- HTTP requests to the vPIC catalogue and JSON decoding (`requests.get(...).json()`, the two URL constants). These are network I/O, so the `Results` list is a parameter.
- Building the model-list URL from `self.initial_data.get("make_name").upper()`. That is part of the request, so the caller supplies the results already fetched for the make.
- A catalogue result without a `Make_Name` or `Model_Name` key would raise `KeyError` in the source. The model's items always carry the name.
- The Django ORM: `Rate.objects.filter`, `aggregate(Sum)`, `values(...).annotate(Count)`. The table is a sequence of records, and the queries are the pure functions `RatesFor`, `Sum` and `GetTotalRates`.
- Rates.Sum: gives `0` for an empty list, where SQL's `SUM` over no rows makes `aggregate(Sum('rate'))['rate__sum']` `None`. `AvgRate` only sums a non-empty list, as the source only aggregates under `if rates:`, so the `None` case is never reached in the model.
- The DRF plumbing: `Meta` classes, `SerializerMethodField`, `read_only_fields`, and the way DRF calls `validate_<field>`. This is framework wiring.
- Persisting a rate. The store is only modelled through `GetTotalRatesAfterStore`, which appends a record.
- CarSerializer.GetAvgRate: assumes one consistent read of the table. The source reads it twice: `if rates:` evaluates and caches the filtered rows, and `len(rates)` reuses that cache. `rates.aggregate(Sum('rate'))` then sends a separate SUM query. A rate written by another request between the two reads gives a sum and a count over different rows, and the rating may then leave `[0, 5]`. If the rows are deleted in between, `rate__sum` is `None` and the division raises `TypeError`. The model takes both from one snapshot, so `GetAvgRateInRange` holds only under that assumption.
- PopularCarSerializer.GetTotalRates: assumes the grouped query returns one group. `values('car').annotate(Count('car'))` on rows already filtered to one car groups by `car` alone, unless the `Rate` model's default `Meta.ordering` adds its own columns to the GROUP BY. Django before 3.1 did that, and then `rate_count_obj[0]` would count only the first of several groups. `core/models.py` is not part of this model, so the model takes the single-group reading and returns the number of the car's records.
- CarSerializer.AvgRate: computed in exact rational arithmetic, not in IEEE doubles. The section above argues that both give the same half point for realistic numbers of rates.
- Casing.Upper: models ASCII upper-casing only. Python's Unicode `str.upper` (for example `ß` to `SS`) is not modelled.
