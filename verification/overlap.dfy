/** Counting the multiples two base frequencies have in common, per parity. */
module Overlap {
  import opened Results
  import opened Multiples

  /** The odd overlap, the even overlap and their sum, in that order. */
  datatype Counts = Counts(odd: nat, even: nat, total: nat)

  /** The set of values a list holds (the source turns each series into a set). */
  function Elements(s: seq<real>): set<real> {
    if |s| == 0 then {} else {s[0]} + Elements(s[1..])
  }

  lemma {:induction false} ElementsMembership(s: seq<real>)
    ensures forall x :: x in Elements(s) <==> x in s
  {
    if |s| > 0 {
      ElementsMembership(s[1..]);
      assert s == [s[0]] + s[1..];
    }
  }

  /** The number of values two lists have in common: the size of the intersection of their sets. */
  function Shared(s: seq<real>, t: seq<real>): nat {
    |Elements(s) * Elements(t)|
  }

  /** x is n times some multiplier of parity p. */
  ghost predicate IsMultiple(n: real, p: Parity, x: real) {
    exists k: nat :: HasParity(p, k) && x == Times(n, k)
  }

  /** The values that the p-series of a and the p-series of b share. */
  function Common(a: real, b: real, p: Parity): set<real>
    requires a > 0.0 && b > 0.0
  {
    Elements(Series(a, p)) * Elements(Series(b, p))
  }

  /** count_common_multiples: the sizes of the odd and even intersections and their sum;
      NotPositive when either base is not positive. */
  function CountCommon(a: real, b: real): (r: Result<Counts>)
    ensures r.Failure? <==> a <= 0.0 || b <= 0.0
    ensures r.Failure? ==> r.error == NotPositive
    ensures r.Success? ==> r.value.total == r.value.odd + r.value.even
  {
    if a <= 0.0 || b <= 0.0 then Failure(NotPositive)
    else
      var oddA, oddB := Series(a, Odd), Series(b, Odd);
      var evenA, evenB := Series(a, Even), Series(b, Even);
      var odd := Shared(oddA, oddB);
      var even := Shared(evenA, evenB);
      Success(Counts(odd, even, odd + even))
  }

  /** A list has at most as many distinct values as elements. */
  lemma {:induction false} ElementsBound(s: seq<real>)
    ensures |Elements(s)| <= |s|
  {
    if |s| > 0 {
      ElementsBound(s[1..]);
    }
  }

  /** A list of distinct values has as many values as elements. */
  lemma {:induction false} ElementsDistinct(s: seq<real>)
    requires forall i, j :: 0 <= i < j < |s| ==> s[i] != s[j]
    ensures |Elements(s)| == |s|
  {
    if |s| > 0 {
      ElementsDistinct(s[1..]);
      ElementsMembership(s[1..]);
      assert s[0] !in Elements(s[1..]);
    }
  }

  /** A subset is no larger than its superset. */
  lemma SubsetCard<T>(u: set<T>, v: set<T>)
    requires u <= v
    ensures |u| <= |v|
  {
    assert v == u + (v - u);
  }

  lemma SharedSymmetric(s: seq<real>, t: seq<real>)
    ensures Shared(s, t) == Shared(t, s)
  {
    assert Elements(s) * Elements(t) == Elements(t) * Elements(s);
  }

  lemma SharedBounded(s: seq<real>, t: seq<real>)
    ensures Shared(s, t) <= |s| && Shared(s, t) <= |t|
  {
    ElementsBound(s);
    ElementsBound(t);
    SubsetCard(Elements(s) * Elements(t), Elements(s));
    SubsetCard(Elements(s) * Elements(t), Elements(t));
  }

  /** A series holds as many distinct values as elements. */
  lemma SeriesElementsDistinct(n: real, p: Parity)
    requires n > 0.0
    ensures |Elements(Series(n, p))| == |Series(n, p)|
  {
    SeriesIncreasing(n, p);
    ElementsDistinct(Series(n, p));
  }

  /** The common multiples of a and b are exactly the values within the ceiling that are
      parity-p multiples of both bases. */
  lemma CommonIsSharedMultiples(a: real, b: real, p: Parity, x: real)
    requires a > 0.0 && b > 0.0
    ensures x in Common(a, b, p) <==> x <= Ceiling && IsMultiple(a, p, x) && IsMultiple(b, p, x)
  {
    ElementsMembership(Series(a, p));
    ElementsMembership(Series(b, p));
    if x in Common(a, b, p) {
      SeriesElements(a, p);
      SeriesElements(b, p);
      var i :| 0 <= i < |Series(a, p)| && Series(a, p)[i] == x;
      var j :| 0 <= j < |Series(b, p)| && Series(b, p)[j] == x;
      assert HasParity(p, Multiplier(p, i)) && x == Times(a, Multiplier(p, i));
      assert HasParity(p, Multiplier(p, j)) && x == Times(b, Multiplier(p, j));
    }
    if x <= Ceiling && IsMultiple(a, p, x) && IsMultiple(b, p, x) {
      var ka: nat :| HasParity(p, ka) && x == Times(a, ka);
      var kb: nat :| HasParity(p, kb) && x == Times(b, kb);
      SeriesComplete(a, p, ka);
      SeriesComplete(b, p, kb);
    }
  }

  /** Each count is the number of values within the ceiling that are multiples of that
      parity of both bases. */
  lemma CountCommonCountsCommon(a: real, b: real, p: Parity, shared: set<real>)
    requires a > 0.0 && b > 0.0
    requires forall x :: x in shared <==> x <= Ceiling && IsMultiple(a, p, x) && IsMultiple(b, p, x)
    ensures (if p == Odd then CountCommon(a, b).value.odd else CountCommon(a, b).value.even) == |shared|
  {
    forall x
      ensures x in shared <==> x in Common(a, b, p)
    {
      CommonIsSharedMultiples(a, b, p, x);
    }
    assert shared == Common(a, b, p);
  }

  /** The counts do not depend on the order of the two bases. */
  lemma CountCommonSymmetric(a: real, b: real)
    ensures CountCommon(a, b) == CountCommon(b, a)
  {
    if a > 0.0 && b > 0.0 {
      var ab, ba := CountCommon(a, b), CountCommon(b, a);
      assert ab.value.odd == ba.value.odd by {
        SharedSymmetric(Series(a, Odd), Series(b, Odd));
      }
      assert ab.value.even == ba.value.even by {
        SharedSymmetric(Series(a, Even), Series(b, Even));
      }
      assert ab.value == ba.value;
    }
  }

  /** Each count is at most the length of either base's series of that parity. */
  lemma CountCommonBounded(a: real, b: real)
    requires a > 0.0 && b > 0.0
    ensures CountCommon(a, b).value.odd <= |Series(a, Odd)|
    ensures CountCommon(a, b).value.odd <= |Series(b, Odd)|
    ensures CountCommon(a, b).value.even <= |Series(a, Even)|
    ensures CountCommon(a, b).value.even <= |Series(b, Even)|
  {
    SharedBounded(Series(a, Odd), Series(b, Odd));
    SharedBounded(Series(a, Even), Series(b, Even));
  }

  /** A list of distinct values shares every value with itself. */
  lemma SharedSelf(s: seq<real>)
    requires forall i, j :: 0 <= i < j < |s| ==> s[i] != s[j]
    ensures Shared(s, s) == |s|
  {
    assert Elements(s) * Elements(s) == Elements(s);
    ElementsDistinct(s);
  }

  /** A base shares every one of its own multiples with itself. */
  lemma CountCommonSelf(a: real)
    requires a > 0.0
    ensures CountCommon(a, a) == Success(Counts(|Series(a, Odd)|, |Series(a, Even)|,
                                                |Series(a, Odd)| + |Series(a, Even)|))
  {
    var r := CountCommon(a, a);
    assert r.value.odd == |Series(a, Odd)| by {
      SeriesIncreasing(a, Odd);
      SharedSelf(Series(a, Odd));
    }
    assert r.value.even == |Series(a, Even)| by {
      SeriesIncreasing(a, Even);
      SharedSelf(Series(a, Even));
    }
  }

  /** An odd multiple of 2b is never an odd multiple of b. */
  lemma OctaveNoOddCommon(b: real, x: real)
    requires b > 0.0
    ensures x !in Common(2.0 * b, b, Odd)
  {
    var a := 2.0 * b;
    CommonIsSharedMultiples(a, b, Odd, x);
    if x in Common(a, b, Odd) {
      var ka: nat :| HasParity(Odd, ka) && x == Times(a, ka);
      var kb: nat :| HasParity(Odd, kb) && x == Times(b, kb);
      TimesDouble(b, ka);
      TimesCancel(b, 2 * ka, kb);
    }
  }

  /** Every even multiple of 2b within the ceiling is an even multiple of b. */
  lemma OctaveEvenContained(b: real)
    requires b > 0.0
    ensures Elements(Series(2.0 * b, Even)) <= Elements(Series(b, Even))
  {
    var a := 2.0 * b;
    SeriesElements(a, Even);
    ElementsMembership(Series(a, Even));
    ElementsMembership(Series(b, Even));
    forall x | x in Elements(Series(a, Even))
      ensures x in Elements(Series(b, Even))
    {
      var i :| 0 <= i < |Series(a, Even)| && Series(a, Even)[i] == x;
      var k := Multiplier(Even, i);
      TimesDouble(b, k);
      SeriesComplete(b, Even, 2 * k);
    }
  }

  lemma OctaveOddShared(b: real)
    requires b > 0.0
    ensures Shared(Series(2.0 * b, Odd), Series(b, Odd)) == 0
  {
    var common := Common(2.0 * b, b, Odd);
    forall x | x in common
      ensures false
    {
      OctaveNoOddCommon(b, x);
    }
    assert common == {};
  }

  lemma OctaveEvenShared(b: real)
    requires b > 0.0
    ensures Shared(Series(2.0 * b, Even), Series(b, Even)) == |Series(2.0 * b, Even)|
  {
    var s := Series(2.0 * b, Even);
    OctaveEvenContained(b);
    assert Elements(s) * Elements(Series(b, Even)) == Elements(s);
    SeriesElementsDistinct(2.0 * b, Even);
  }

  /** A base and the base an octave below it share no odd multiple,
      and every even multiple of the higher base is an even multiple of the lower one. */
  lemma CountCommonOctave(b: real)
    requires b > 0.0
    ensures CountCommon(2.0 * b, b) == Success(Counts(0, |Series(2.0 * b, Even)|, |Series(2.0 * b, Even)|))
  {
    var r := CountCommon(2.0 * b, b);
    assert r.value.odd == 0 by {
      OctaveOddShared(b);
    }
    var len := |Series(2.0 * b, Even)|;
    assert r.value.even == len by {
      OctaveEvenShared(b);
    }
    assert r.value == Counts(0, len, len);
  }
}
