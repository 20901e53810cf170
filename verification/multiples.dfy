/** The odd and even multiple series of a base frequency, bounded by 20000 Hz. */
module Multiples {
  import opened Results

  /** Upper bound of every series, in Hz. */
  const Ceiling: real := 20000.0

  datatype Parity = Odd | Even

  /** First multiplier of a series: 1 for the odd series, 2 for the even one. */
  function Start(p: Parity): nat {
    if p == Odd then 1 else 2
  }

  /** The multiplier of the i-th element of a series (multipliers step by 2). */
  function Multiplier(p: Parity, i: nat): nat {
    Start(p) + 2 * i
  }

  /** k is a multiplier of the given parity: odd, or even and at least 2. */
  predicate HasParity(p: Parity, k: nat) {
    match p
    case Odd => k % 2 == 1
    case Even => k >= 2 && k % 2 == 0
  }

  /** The multiple n * k, written as a repeated sum so that proofs about series stay
      linear; TimesIsProduct shows it is the product. */
  function Times(n: real, k: nat): real {
    if k == 0 then 0.0 else Times(n, k - 1) + n
  }

  lemma {:induction false} TimesIsProduct(n: real, k: nat)
    ensures Times(n, k) == n * k as real
  {
    if k > 0 {
      TimesIsProduct(n, k - 1);
      assert n * k as real == n * (k - 1) as real + n;
    }
  }

  /** Larger multipliers give larger multiples of a positive base. */
  lemma {:induction false} TimesMonotone(n: real, i: nat, j: nat)
    requires n > 0.0
    requires i < j
    ensures Times(n, i) < Times(n, j)
  {
    if i + 1 < j {
      TimesMonotone(n, i, j - 1);
    }
  }

  /** Equal multiples of one positive base have equal multipliers. */
  lemma TimesCancel(n: real, j: nat, k: nat)
    requires n > 0.0
    requires Times(n, j) == Times(n, k)
    ensures j == k
  {
    if j < k {
      TimesMonotone(n, j, k);
    } else if k < j {
      TimesMonotone(n, k, j);
    }
  }

  /** The k-th multiple of 2n is the 2k-th multiple of n. */
  lemma {:induction false} TimesDouble(n: real, k: nat)
    ensures Times(2.0 * n, k) == Times(n, 2 * k)
  {
    if k > 0 {
      TimesDouble(n, k - 1);
      assert Times(n, 2 * k) == Times(n, 2 * k - 1) + n;
      assert Times(n, 2 * k - 1) == Times(n, 2 * (k - 1)) + n;
    }
  }

  /** The i-th element of the p-series of n. */
  function Nth(n: real, p: Parity, i: nat): real {
    Times(n, Multiplier(p, i))
  }

  /** s is the series of base n: its i-th element is n times the i-th multiplier,
      every element is within the ceiling, and the next multiple is above it. */
  ghost predicate IsSeries(n: real, p: Parity, s: seq<real>) {
    && (forall i :: 0 <= i < |s| ==> s[i] == Nth(n, p, i))
    && (forall i :: 0 <= i < |s| ==> s[i] <= Ceiling)
    && Nth(n, p, |s|) > Ceiling
  }

  /** The series of base n from the i-th multiplier on: each multiple in turn,
      up to the first one above the ceiling. */
  function SeriesFrom(n: real, p: Parity, i: nat): (s: seq<real>)
    requires n > 0.0
    ensures forall j :: 0 <= j < |s| ==> s[j] == Nth(n, p, i + j)
    ensures forall j :: 0 <= j < |s| ==> s[j] <= Ceiling
    ensures Nth(n, p, i + |s|) > Ceiling
    decreases (Ceiling / n).Floor - i
  {
    var m := Nth(n, p, i);
    if m > Ceiling then []
    else
      assert i <= (Ceiling / n).Floor by {
        var k := Multiplier(p, i);
        TimesIsProduct(n, k);
        assert n * k as real <= Ceiling;
        assert k as real <= Ceiling / n;
      }
      [m] + SeriesFrom(n, p, i + 1)
  }

  /** The series of a positive base, as a sequence. */
  function Series(n: real, p: Parity): (s: seq<real>)
    requires n > 0.0
    ensures IsSeries(n, p, s)
  {
    SeriesFrom(n, p, 0)
  }

  /** For a sequence that satisfies the characterisation, an index is in range exactly
      when its multiple is within the ceiling. */
  lemma IndexInRange(n: real, p: Parity, s: seq<real>, i: nat)
    requires n > 0.0
    requires IsSeries(n, p, s)
    ensures i < |s| <==> Nth(n, p, i) <= Ceiling
  {
    if i < |s| {
      assert s[i] <= Ceiling;
    } else if i > |s| {
      TimesMonotone(n, Multiplier(p, |s|), Multiplier(p, i));
    }
  }

  /** The i-th multiple lies within the ceiling exactly when i indexes the series. */
  lemma IndexInSeries(n: real, p: Parity, i: nat)
    requires n > 0.0
    ensures i < |Series(n, p)| <==> Nth(n, p, i) <= Ceiling
  {
    IndexInRange(n, p, Series(n, p), i);
  }

  /** calculate_multiples: the series of base n, or NotPositive when n <= 0. */
  function CalculateMultiples(n: real, p: Parity): (r: Result<seq<real>>)
    ensures r.Failure? <==> n <= 0.0
    ensures r.Failure? ==> r.error == NotPositive
    ensures r.Success? ==> IsSeries(n, p, r.value)
  {
    if n <= 0.0 then Failure(NotPositive) else Success(Series(n, p))
  }

  /** A positive base has exactly one series: the characterisation determines it. */
  lemma SeriesUnique(n: real, p: Parity, s: seq<real>, t: seq<real>)
    requires n > 0.0
    requires IsSeries(n, p, s) && IsSeries(n, p, t)
    ensures s == t
  {
    IndexInRange(n, p, s, |t|);
    IndexInRange(n, p, t, |s|);
  }

  /** Whatever satisfies the characterisation is what the generator returns. */
  lemma SeriesIsResult(n: real, p: Parity, s: seq<real>)
    requires n > 0.0
    requires IsSeries(n, p, s)
    ensures CalculateMultiples(n, p) == Success(s)
  {
    SeriesUnique(n, p, s, Series(n, p));
  }

  /** The generator loop as the source writes it: start at the first multiplier,
      stop at the first product above the ceiling, step the multiplier by 2. */
  method CalculateMultiplesLoop(n: real, p: Parity) returns (r: Result<seq<real>>)
    ensures r.Failure? <==> n <= 0.0
    ensures r.Success? ==> IsSeries(n, p, r.value)
    ensures r == CalculateMultiples(n, p)
  {
    if n <= 0.0 {
      return Failure(NotPositive);
    }
    var multiples: seq<real> := [];
    var multiple: nat := Start(p);
    ghost var len := |Series(n, p)|;
    while true
      invariant multiple == Multiplier(p, |multiples|)
      invariant |multiples| <= len
      invariant forall i :: 0 <= i < |multiples| ==> multiples[i] == Nth(n, p, i)
      invariant forall i :: 0 <= i < |multiples| ==> multiples[i] <= Ceiling
      decreases len - |multiples|
    {
      var result := Times(n, multiple);
      if result > Ceiling {
        break;
      }
      IndexInSeries(n, p, |multiples|);
      multiples := multiples + [result];
      multiple := multiple + 2;
    }
    SeriesIsResult(n, p, multiples);
    return Success(multiples);
  }

  /** Every element is n times a multiplier of the series' parity, and within the ceiling. */
  lemma SeriesElements(n: real, p: Parity)
    requires n > 0.0
    ensures forall i :: 0 <= i < |Series(n, p)| ==>
      && Series(n, p)[i] == Times(n, Multiplier(p, i))
      && HasParity(p, Multiplier(p, i))
      && Series(n, p)[i] <= Ceiling
  {
  }

  /** A series of a positive base is strictly increasing. */
  lemma SeriesIncreasing(n: real, p: Parity)
    requires n > 0.0
    ensures forall i, j :: 0 <= i < j < |Series(n, p)| ==> Series(n, p)[i] < Series(n, p)[j]
  {
    var s := Series(n, p);
    forall i, j | 0 <= i < j < |s|
      ensures s[i] < s[j]
    {
      TimesMonotone(n, Multiplier(p, i), Multiplier(p, j));
    }
  }

  /** No multiple of the right parity within the ceiling is missing from the series. */
  lemma SeriesComplete(n: real, p: Parity, k: nat)
    requires n > 0.0
    requires HasParity(p, k)
    requires Times(n, k) <= Ceiling
    ensures Times(n, k) in Series(n, p)
  {
    var i: nat := (k - Start(p)) / 2;
    assert Multiplier(p, i) == k;
    IndexInSeries(n, p, i);
    assert Series(n, p)[i] == Times(n, k);
  }

  /** A series is empty exactly when its first multiple is above the ceiling. */
  lemma SeriesEmptyIff(n: real, p: Parity)
    requires n > 0.0
    ensures |Series(n, p)| == 0 <==> Times(n, Start(p)) > Ceiling
  {
    IndexInSeries(n, p, 0);
    assert Multiplier(p, 0) == Start(p);
  }
}
