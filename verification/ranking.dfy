/** Candidates of the scan and the stable sort that ranks them by total overlap. */
module Ranking {

  /** A scan result: the candidate frequency in hundredths of a hertz and its
      odd, even and total overlap counts. */
  datatype Candidate = Candidate(centiHz: int, odd: nat, even: nat, total: nat)

  /** Totals never increase along r. */
  ghost predicate NonIncreasing(r: seq<Candidate>) {
    forall i, j :: 0 <= i < j < |r| ==> r[i].total >= r[j].total
  }

  /** Frequencies strictly increase along s. */
  ghost predicate AscendingFreq(s: seq<Candidate>) {
    forall i, j :: 0 <= i < j < |s| ==> s[i].centiHz < s[j].centiHz
  }

  /** Entries with equal totals appear in ascending frequency. */
  ghost predicate TiesAscending(r: seq<Candidate>) {
    forall i, j :: 0 <= i < j < |r| && r[i].total == r[j].total ==> r[i].centiHz < r[j].centiHz
  }

  /** The entries of s whose total is k, in their order in s. */
  function WithTotal(s: seq<Candidate>, k: nat): (r: seq<Candidate>)
    ensures forall x :: x in r ==> x in s && x.total == k
  {
    if |s| == 0 then []
    else if s[0].total == k then [s[0]] + WithTotal(s[1..], k)
    else WithTotal(s[1..], k)
  }

  /** Places x after every entry of t with a larger total and before all the others. */
  function Insert(x: Candidate, t: seq<Candidate>): (r: seq<Candidate>)
    ensures multiset(r) == multiset(t) + multiset{x}
  {
    if |t| == 0 || x.total >= t[0].total then
      [x] + t
    else
      assert t == [t[0]] + t[1..];
      [t[0]] + Insert(x, t[1..])
  }

  lemma {:induction false} InsertNonIncreasing(x: Candidate, t: seq<Candidate>)
    requires NonIncreasing(t)
    ensures NonIncreasing(Insert(x, t))
  {
    if |t| > 0 && x.total < t[0].total {
      var rest := Insert(x, t[1..]);
      InsertNonIncreasing(x, t[1..]);
      var r := [t[0]] + rest;
      forall i, j | 0 <= i < j < |r|
        ensures r[i].total >= r[j].total
      {
        if i == 0 {
          assert r[j] in multiset(rest);
          if r[j] != x {
            assert r[j] in t[1..];
            var m :| 0 <= m < |t[1..]| && t[1..][m] == r[j];
            assert t[0].total >= t[m + 1].total;
          }
        }
      }
    }
  }

  /** The source's list.sort(key=total, reverse=True): an insertion sort that is stable,
      so entries with equal totals keep their order. */
  function SortByTotal(s: seq<Candidate>): (r: seq<Candidate>)
    ensures multiset(r) == multiset(s)
    ensures NonIncreasing(r)
  {
    if |s| == 0 then []
    else
      assert s == [s[0]] + s[1..];
      var sorted := SortByTotal(s[1..]);
      InsertNonIncreasing(s[0], sorted);
      Insert(s[0], sorted)
  }

  lemma {:induction false} InsertWithTotal(x: Candidate, t: seq<Candidate>, k: nat)
    ensures WithTotal(Insert(x, t), k) == (if x.total == k then [x] else []) + WithTotal(t, k)
  {
    if |t| == 0 || x.total >= t[0].total {
      assert ([x] + t)[1..] == t;
    } else {
      var rest := Insert(x, t[1..]);
      InsertWithTotal(x, t[1..], k);
      assert ([t[0]] + rest)[1..] == rest;
    }
  }

  /** Sorting keeps, for every total, the entries with that total in their original order. */
  lemma {:induction false} SortStable(s: seq<Candidate>, k: nat)
    ensures WithTotal(SortByTotal(s), k) == WithTotal(s, k)
  {
    if |s| > 0 {
      SortStable(s[1..], k);
      InsertWithTotal(s[0], SortByTotal(s[1..]), k);
    }
  }

  lemma {:induction false} InsertTiesAscending(x: Candidate, t: seq<Candidate>)
    requires TiesAscending(t)
    requires forall y :: y in t ==> x.centiHz < y.centiHz
    ensures TiesAscending(Insert(x, t))
  {
    if |t| > 0 && x.total < t[0].total {
      var rest := Insert(x, t[1..]);
      InsertTiesAscending(x, t[1..]);
      var r := [t[0]] + rest;
      forall i, j | 0 <= i < j < |r| && r[i].total == r[j].total
        ensures r[i].centiHz < r[j].centiHz
      {
        if i == 0 {
          assert r[j] in multiset(rest);
          assert r[j] != x;
          assert r[j] in t[1..];
          var m :| 0 <= m < |t[1..]| && t[1..][m] == r[j];
          assert t[0].centiHz < t[m + 1].centiHz;
        }
      }
    }
  }

  /** Sorting a list in ascending frequency leaves equal totals in ascending frequency. */
  lemma {:induction false} SortTiesAscending(s: seq<Candidate>)
    requires AscendingFreq(s)
    ensures TiesAscending(SortByTotal(s))
  {
    if |s| > 0 {
      var sorted := SortByTotal(s[1..]);
      SortTiesAscending(s[1..]);
      forall y | y in sorted
        ensures s[0].centiHz < y.centiHz
      {
        assert y in multiset(s[1..]);
        var m :| 0 <= m < |s[1..]| && s[1..][m] == y;
        assert s[0].centiHz < s[m + 1].centiHz;
      }
      InsertTiesAscending(s[0], sorted);
    }
  }
}
