/** The candidate scan: every hundredth of a hertz from 20.00 to 8372.02, scored against a base. */
module Scanner {
  import opened Results
  import opened Overlap
  import opened Ranking

  /** The scan range in hundredths of a hertz: 20.00 Hz to 8372.02 Hz, both included. */
  const ScanLow: int := 2000
  const ScanHigh: int := 837202

  /** A candidate is kept when it shares more than this many multiples with the base. */
  const Threshold: nat := 5

  /** The frequency of a candidate given in hundredths of a hertz. */
  function Hz(c: int): real {
    c as real / 100.0
  }

  /** Candidate d passes against base n under a scoring: it is not n itself, scoring it
      succeeds, and its total overlap exceeds the threshold. */
  predicate Passes(n: real, score: int -> Result<Counts>, d: int) {
    Hz(d) != n && score(d).Success? && score(d).value.total > Threshold
  }

  /** The tuple the scan appends for candidate d: its frequency and its counts. */
  function Record(score: int -> Result<Counts>, d: int): (x: Candidate)
    requires score(d).Success?
    ensures x.centiHz == d
  {
    var k := score(d).value;
    Candidate(d, k.odd, k.even, k.total)
  }

  /** Every candidate from c to the top of the range, other than the base, scores successfully. */
  ghost predicate ScoresFrom(n: real, score: int -> Result<Counts>, c: int) {
    forall d :: c <= d <= ScanHigh && Hz(d) != n ==> score(d).Success?
  }

  /** The scan loop from candidate c on. score(d) is the outcome of counting the common
      multiples of candidate d; the first failure ends the scan with its error. */
  function ScanFrom(n: real, score: int -> Result<Counts>, c: int): (r: Result<seq<Candidate>>)
    ensures r.Success? <==> ScoresFrom(n, score, c)
    ensures r.Failure? ==> exists d :: c <= d <= ScanHigh && Hz(d) != n && score(d) == Failure(r.error)
    ensures r.Success? ==> forall i :: 0 <= i < |r.value| ==> c <= r.value[i].centiHz <= ScanHigh
    ensures r.Success? ==> AscendingFreq(r.value)
    ensures r.Success? ==> forall x :: x in r.value ==> Passes(n, score, x.centiHz) && x == Record(score, x.centiHz)
    ensures r.Success? ==> forall d :: c <= d <= ScanHigh && Passes(n, score, d) ==> Record(score, d) in r.value
    decreases ScanHigh + 1 - c
  {
    if c > ScanHigh then Success([])
    else if Hz(c) == n then ScanFrom(n, score, c + 1)
    else if score(c).Failure? then Failure(score(c).error)
    else
      var rest :- ScanFrom(n, score, c + 1);
      if score(c).value.total > Threshold then Success([Record(score, c)] + rest) else Success(rest)
  }

  /** The scan followed by the stable sort on descending total. */
  function Rank(n: real, score: int -> Result<Counts>): (r: Result<seq<Candidate>>)
    ensures r.Success? <==> ScoresFrom(n, score, ScanLow)
    ensures r.Failure? ==> exists d :: ScanLow <= d <= ScanHigh && score(d) == Failure(r.error)
    ensures r.Success? ==> NonIncreasing(r.value) && TiesAscending(r.value)
    ensures r.Success? ==> forall x :: x in r.value ==>
      && ScanLow <= x.centiHz <= ScanHigh
      && Passes(n, score, x.centiHz)
      && x == Record(score, x.centiHz)
    ensures r.Success? ==> forall d :: ScanLow <= d <= ScanHigh && Passes(n, score, d) ==> Record(score, d) in r.value
  {
    var scanned :- ScanFrom(n, score, ScanLow);
    var ranked := SortByTotal(scanned);
    SortTiesAscending(scanned);
    assert forall x :: x in ranked <==> x in scanned by {
      forall x
        ensures x in ranked <==> x in scanned
      {
        assert x in ranked <==> x in multiset(ranked);
      }
    }
    Success(ranked)
  }

  /** The scoring of the source: count_common_multiples(n, d / 100). */
  function Score(n: real): int -> Result<Counts> {
    d => CountCommon(n, Hz(d))
  }

  /** Every candidate of the range scores successfully against a positive base;
      against a non-positive base the first candidate fails. */
  lemma ScoreOutcome(n: real)
    ensures n > 0.0 ==> ScoresFrom(n, Score(n), ScanLow)
    ensures n <= 0.0 ==> Hz(ScanLow) != n && Score(n)(ScanLow) == Failure(NotPositive)
  {
  }

  /** find_all_common_numbers: the candidates that pass, ranked by descending total overlap;
      NotPositive when the base is not positive, since scoring the first candidate fails. */
  function FindAllCommonNumbers(n: real): (r: Result<seq<Candidate>>)
    ensures r.Failure? <==> n <= 0.0
    ensures r.Failure? ==> r.error == NotPositive
    ensures r.Success? ==> NonIncreasing(r.value) && TiesAscending(r.value)
    ensures r.Success? ==> forall x :: x in r.value ==>
      && ScanLow <= x.centiHz <= ScanHigh
      && Passes(n, Score(n), x.centiHz)
      && x == Record(Score(n), x.centiHz)
    ensures r.Success? ==> forall d :: ScanLow <= d <= ScanHigh && Passes(n, Score(n), d) ==> Record(Score(n), d) in r.value
  {
    ScoreOutcome(n);
    if n <= 0.0 then Failure(NotPositive) else Rank(n, Score(n))
  }

  /** The early exit on a non-positive base is only a shortcut: scanning with it fails
      on the first candidate with the same error. */
  lemma FindAllIsRankedScan(n: real)
    ensures FindAllCommonNumbers(n) == Rank(n, Score(n))
  {
    if n <= 0.0 {
      ScoreOutcome(n);
      var r := Rank(n, Score(n));
      var d :| ScanLow <= d <= ScanHigh && Score(n)(d) == Failure(r.error);
      assert CountCommon(n, Hz(d)).error == NotPositive;
    }
  }

  /** Each kept tuple holds exactly the counts of count_common_multiples(n, c / 100)
      for its own candidate c, which lies in the range, is not n, and scores above the threshold. */
  lemma FindAllCounts(n: real)
    requires n > 0.0
    ensures forall x :: x in FindAllCommonNumbers(n).value ==>
      && ScanLow <= x.centiHz <= ScanHigh && Hz(x.centiHz) != n
      && CountCommon(n, Hz(x.centiHz)) == Success(Counts(x.odd, x.even, x.total))
      && x.total > Threshold
  {
    var r := FindAllCommonNumbers(n).value;
    forall x | x in r
      ensures CountCommon(n, Hz(x.centiHz)) == Success(Counts(x.odd, x.even, x.total))
    {
      assert Passes(n, Score(n), x.centiHz) && x == Record(Score(n), x.centiHz);
      var k := CountCommon(n, Hz(x.centiHz)).value;
      assert x.odd == k.odd && x.even == k.even && x.total == k.total;
    }
  }

  /** A candidate of the range appears in the result exactly when it is not n and its
      total overlap with n exceeds the threshold. */
  lemma FindAllExactly(n: real, d: int)
    requires n > 0.0
    requires ScanLow <= d <= ScanHigh
    ensures (exists x :: x in FindAllCommonNumbers(n).value && x.centiHz == d)
            <==> Hz(d) != n && CountCommon(n, Hz(d)).value.total > Threshold
  {
    var r := FindAllCommonNumbers(n).value;
    if Hz(d) != n && CountCommon(n, Hz(d)).value.total > Threshold {
      assert Passes(n, Score(n), d);
      assert Record(Score(n), d) in r;
    }
    if x :| x in r && x.centiHz == d {
      assert Passes(n, Score(n), x.centiHz);
    }
  }
}
