/** The Rate records of the database, as the serializers see them: every
    record names the car it belongs to and carries an integer score. The
    table itself is an input sequence; `RatesFor` is the query
    `Rate.objects.filter(car_id=car.id)`, keeping only the scores. */
module Rates {

  type CarId = nat

  datatype Rate = Rate(car: CarId, rate: int)

  /** The scores of the records that belong to `car`, in table order. */
  function RatesFor(records: seq<Rate>, car: CarId): (rates: seq<int>)
    ensures |rates| <= |records|
    ensures rates == [] <==> forall i :: 0 <= i < |records| ==> records[i].car != car
  {
    if records == [] then []
    else
      var rest := RatesFor(records[1..], car);
      assert forall i :: 1 <= i < |records| ==> records[i] == records[1..][i - 1];
      if records[0].car == car then [records[0].rate] + rest else rest
  }

  /** A score is kept exactly when some record of `car` carries it. */
  lemma {:induction false} RatesForMembers(records: seq<Rate>, car: CarId, x: int)
    ensures x in RatesFor(records, car) <==>
      exists i :: 0 <= i < |records| && records[i] == Rate(car, x)
  {
    if records != [] {
      RatesForMembers(records[1..], car, x);
      assert forall i :: 1 <= i < |records| ==> records[i] == records[1..][i - 1];
      if x in RatesFor(records[1..], car) {
        var i :| 0 <= i < |records[1..]| && records[1..][i] == Rate(car, x);
        assert records[i + 1] == Rate(car, x);
      }
    }
  }

  /** The car of every record, in table order. */
  function CarsOf(records: seq<Rate>): (cars: seq<CarId>)
    ensures |cars| == |records|
    ensures forall i :: 0 <= i < |records| ==> cars[i] == records[i].car
  {
    if records == [] then [] else [records[0].car] + CarsOf(records[1..])
  }

  /** The sum of a list of scores: the aggregate `Sum('rate')` on a
      non-empty set of rows. On no rows SQL gives NULL; here the empty sum
      is 0, the identity that concatenation needs. */
  function Sum(s: seq<int>): (t: int)
    ensures s == [] ==> t == 0
    ensures |s| == 1 ==> t == s[0]
  {
    if s == [] then 0 else s[0] + Sum(s[1..])
  }

  function Min(s: seq<int>): (m: int)
    requires s != []
    ensures m in s
    ensures forall i :: 0 <= i < |s| ==> m <= s[i]
  {
    if |s| == 1 then s[0]
    else
      var rest := Min(s[1..]);
      assert forall i :: 1 <= i < |s| ==> s[i] == s[1..][i - 1];
      if s[0] <= rest then s[0] else rest
  }

  function Max(s: seq<int>): (m: int)
    requires s != []
    ensures m in s
    ensures forall i :: 0 <= i < |s| ==> s[i] <= m
  {
    if |s| == 1 then s[0]
    else
      var rest := Max(s[1..]);
      assert forall i :: 1 <= i < |s| ==> s[i] == s[1..][i - 1];
      if s[0] >= rest then s[0] else rest
  }

  /** Filtering distributes over concatenation of tables. */
  lemma {:induction false} RatesForAppend(a: seq<Rate>, b: seq<Rate>, car: CarId)
    ensures RatesFor(a + b, car) == RatesFor(a, car) + RatesFor(b, car)
  {
    if a == [] {
      assert a + b == b;
    } else {
      assert (a + b)[0] == a[0];
      assert (a + b)[1..] == a[1..] + b;
      RatesForAppend(a[1..], b, car);
      if a[0].car == car {
        assert [a[0].rate] + (RatesFor(a[1..], car) + RatesFor(b, car))
            == ([a[0].rate] + RatesFor(a[1..], car)) + RatesFor(b, car);
      }
    }
  }

  /** A permutation of the table gives a permutation of each car's scores:
      the query's row order is irrelevant to anything computed from the
      multiset of scores. */
  lemma {:induction false} RatesForPermutation(a: seq<Rate>, b: seq<Rate>, car: CarId)
    requires multiset(a) == multiset(b)
    ensures multiset(RatesFor(a, car)) == multiset(RatesFor(b, car))
  {
    if a == [] {
      assert |b| == |multiset(b)| == 0;
    } else {
      var x := a[0];
      var j := IndexOf(b, x);
      var a', b' := a[1..], b[..j] + b[j + 1..];
      RemoveFirst(a, b, j);
      RatesForPermutation(a', b', car);
      RatesForRemoveAt(b, j, car);
      assert a == [x] + a';
      RatesForAppend([x], a', car);
    }
  }

  /** A position of `x` in `t` when `x` occurs in it. */
  lemma IndexOf<T>(t: seq<T>, x: T) returns (j: nat)
    requires x in multiset(t)
    ensures j < |t| && t[j] == x
  {
    assert x in t;
    j :| 0 <= j < |t| && t[j] == x;
  }

  /** Dropping the head of `s` and the matching element `t[j]` of a
      permutation `t` leaves permutations of each other. */
  lemma RemoveFirst<T>(s: seq<T>, t: seq<T>, j: nat)
    requires multiset(s) == multiset(t) && s != [] && j < |t| && t[j] == s[0]
    ensures multiset(s[1..]) == multiset(t[..j] + t[j + 1..])
  {
    assert s == [s[0]] + s[1..];
    assert multiset(s) == multiset{s[0]} + multiset(s[1..]);
    MultisetRemoveAt(t, j);
  }

  /** Removing the element at `j` removes one occurrence from the multiset. */
  lemma MultisetRemoveAt<T>(t: seq<T>, j: nat)
    requires j < |t|
    ensures multiset(t[..j] + t[j + 1..]) == multiset(t) - multiset{t[j]}
  {
    assert t == t[..j] + [t[j]] + t[j + 1..];
  }

  /** Filtering the table with record `j` taken out. */
  lemma RatesForRemoveAt(t: seq<Rate>, j: nat, car: CarId)
    requires j < |t|
    ensures multiset(RatesFor(t, car))
         == multiset(RatesFor([t[j]], car)) + multiset(RatesFor(t[..j] + t[j + 1..], car))
  {
    var a, x, b := t[..j], t[j], t[j + 1..];
    assert t == a + ([x] + b);
    RatesForAppend(a, [x] + b, car);
    RatesForAppend([x], b, car);
    RatesForAppend(a, b, car);
  }

  /** The number of scores kept for `car` is the multiplicity of `car`
      among the records' car references. */
  lemma {:induction false} RatesForCount(records: seq<Rate>, car: CarId)
    ensures |RatesFor(records, car)| == multiset(CarsOf(records))[car]
  {
    if records != [] {
      RatesForCount(records[1..], car);
      assert CarsOf(records) == [records[0].car] + CarsOf(records[1..]);
    }
  }

  lemma {:induction false} SumAppend(a: seq<int>, b: seq<int>)
    ensures Sum(a + b) == Sum(a) + Sum(b)
  {
    if a == [] {
      assert a + b == b;
    } else {
      assert (a + b)[0] == a[0];
      assert (a + b)[1..] == a[1..] + b;
      SumAppend(a[1..], b);
    }
  }

  /** `Sum` depends only on the multiset of its arguments. */
  lemma {:induction false} SumPermutation(s: seq<int>, t: seq<int>)
    requires multiset(s) == multiset(t)
    ensures Sum(s) == Sum(t)
  {
    if s == [] {
      assert |t| == |multiset(t)| == 0;
    } else {
      var j := IndexOf(t, s[0]);
      var s', t' := s[1..], t[..j] + t[j + 1..];
      RemoveFirst(s, t, j);
      SumPermutation(s', t');
      SumRemoveAt(t, j);
    }
  }

  lemma SumRemoveAt(t: seq<int>, j: nat)
    requires j < |t|
    ensures Sum(t) == t[j] + Sum(t[..j] + t[j + 1..])
  {
    SplitAt(t, j);
    SumSplit(t[..j], t[j], t[j + 1..]);
  }

  lemma SplitAt<T>(t: seq<T>, j: nat)
    requires j < |t|
    ensures t == t[..j] + ([t[j]] + t[j + 1..])
  {
    assert t[j..] == [t[j]] + t[j + 1..];
    assert t == t[..j] + t[j..];
  }

  lemma SumSplit(a: seq<int>, x: int, b: seq<int>)
    ensures Sum(a + ([x] + b)) == x + Sum(a + b)
  {
    SumAppend(a, [x] + b);
    assert ([x] + b)[1..] == b;
    SumAppend(a, b);
  }

  /** Every score in `[lo, hi]` puts the sum in `[n * lo, n * hi]`. */
  lemma {:induction false} SumBounds(s: seq<int>, lo: int, hi: int)
    requires forall i :: 0 <= i < |s| ==> lo <= s[i] <= hi
    ensures |s| * lo <= Sum(s) <= |s| * hi
  {
    if s != [] {
      assert forall i :: 0 <= i < |s| - 1 ==> s[1..][i] == s[i + 1];
      SumBounds(s[1..], lo, hi);
      assert |s| * lo == lo + (|s| - 1) * lo;
      assert |s| * hi == hi + (|s| - 1) * hi;
    }
  }
}
