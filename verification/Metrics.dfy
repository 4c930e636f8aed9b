/**
 Retrieval metrics (packages/core/eval/metrics.py) in exact arithmetic, before rounding: the counting
 loop, and how the mean reciprocal rank is squeezed between the hit rates.
 */
module Metrics {
  import opened Wrappers

  datatype CaseResult = CaseResult(
    expectedIds: seq<string>, actualIds: seq<string>,
    requestedVersion: Option<string>, topHitVersion: Option<string>, abstained: bool)

  datatype Counts = Counts(
    total: nat, hit1: nat, hit3: nat, hit5: nat, mrrTotal: real,
    wrongVersion: nat, wrongVersionTotal: nat, falsePositive: nat, negativeTotal: nat,
    abstainTruePositive: nat, abstainTotal: nat)

  datatype RetrievalMetrics = RetrievalMetrics(
    casesTotal: nat, hitAt1: real, hitAt3: real, hitAt5: real, mrr: real,
    wrongVersionRate: real, falsePositiveRate: real, abstainPrecision: real)

  function Expected(c: CaseResult): set<string> {
    set id | id in c.expectedIds
  }

  predicate Positive(c: CaseResult) {
    Expected(c) != {}
  }

  /** An expected id is among the first k actual ones. */
  predicate HitWithin(c: CaseResult, k: nat) {
    exists i :: 0 <= i < k && i < |c.actualIds| && c.actualIds[i] in Expected(c)
  }

  /** i is the position of the first expected id. */
  predicate IsFirstHit(c: CaseResult, i: nat) {
    i < |c.actualIds| && c.actualIds[i] in Expected(c) && forall j :: 0 <= j < i ==> c.actualIds[j] !in Expected(c)
  }

  /** The reciprocal of the rank of the first expected id, 0 when there is none. */
  ghost function ReciprocalRank(c: CaseResult): real {
    if exists i: nat :: IsFirstHit(c, i) then
      var i: nat :| IsFirstHit(c, i);
      1.0 / (i + 1) as real
    else 0.0
  }

  /** _mrr: scan with early return. */
  method Mrr(c: CaseResult) returns (r: real)
    ensures r == ReciprocalRank(c)
  {
    for i := 0 to |c.actualIds|
      invariant forall j :: 0 <= j < i ==> c.actualIds[j] !in Expected(c)
    {
      if c.actualIds[i] in Expected(c) {
        assert IsFirstHit(c, i);
        return 1.0 / (i + 1) as real;
      }
    }
    r := 0.0;
  }

  method AnyHit(c: CaseResult, k: nat) returns (hit: bool)
    ensures hit == HitWithin(c, k)
  {
    var i := 0;
    while i < k && i < |c.actualIds|
      invariant 0 <= i && forall j :: 0 <= j < i ==> j < |c.actualIds| && c.actualIds[j] !in Expected(c)
    {
      if c.actualIds[i] in Expected(c) {
        return true;
      }
      i := i + 1;
    }
    hit := false;
  }

  function One(b: bool): nat {
    if b then 1 else 0
  }

  /** The number of cases with a property. */
  ghost function Count(cases: seq<CaseResult>, p: CaseResult -> bool): nat {
    if cases == [] then 0 else Count(cases[..|cases| - 1], p) + One(p(cases[|cases| - 1]))
  }

  ghost function MrrTotal(cases: seq<CaseResult>): real {
    if cases == [] then 0.0
    else MrrTotal(cases[..|cases| - 1]) +
         if Positive(cases[|cases| - 1]) then ReciprocalRank(cases[|cases| - 1]) else 0.0
  }

  predicate Hit1(c: CaseResult) { Positive(c) && HitWithin(c, 1) }

  predicate Hit3(c: CaseResult) { Positive(c) && HitWithin(c, 3) }

  predicate Hit5(c: CaseResult) { Positive(c) && HitWithin(c, 5) }

  predicate Versioned(c: CaseResult) { Given(c.requestedVersion) }

  predicate VersionMismatch(c: CaseResult) {
    Versioned(c) && Given(c.topHitVersion) && c.topHitVersion != c.requestedVersion
  }

  predicate Negative(c: CaseResult) { !Positive(c) }

  predicate FalsePositive(c: CaseResult) { !Positive(c) && c.actualIds != [] }

  predicate Abstained(c: CaseResult) { c.abstained }

  predicate AbstainedRightly(c: CaseResult) { c.abstained && !Positive(c) }

  /** What every counter of the loop counts. */
  ghost predicate Counted(cases: seq<CaseResult>, n: Counts) {
    && n.total == |cases|
    && n.hit1 == Count(cases, Hit1) && n.hit3 == Count(cases, Hit3) && n.hit5 == Count(cases, Hit5)
    && n.mrrTotal == MrrTotal(cases)
    && n.wrongVersion == Count(cases, VersionMismatch) && n.wrongVersionTotal == Count(cases, Versioned)
    && n.falsePositive == Count(cases, FalsePositive) && n.negativeTotal == Count(cases, Negative)
    && n.abstainTruePositive == Count(cases, AbstainedRightly) && n.abstainTotal == Count(cases, Abstained)
  }

  lemma CountStep(cases: seq<CaseResult>, i: nat, p: CaseResult -> bool)
    requires i < |cases|
    ensures Count(cases[..i + 1], p) == Count(cases[..i], p) + One(p(cases[i]))
  {
    assert cases[..i + 1][..i] == cases[..i];
  }

  /** The counting loop. */
  method CountCases(cases: seq<CaseResult>) returns (n: Counts)
    ensures Counted(cases, n)
  {
    n := Counts(|cases|, 0, 0, 0, 0.0, 0, 0, 0, 0, 0, 0);
    for i := 0 to |cases|
      invariant Counted(cases[..i], n.(total := i)) && n.total == |cases|
    {
      var c := cases[i];
      CountStep(cases, i, Hit1);
      CountStep(cases, i, Hit3);
      CountStep(cases, i, Hit5);
      CountStep(cases, i, VersionMismatch);
      CountStep(cases, i, Versioned);
      CountStep(cases, i, FalsePositive);
      CountStep(cases, i, Negative);
      CountStep(cases, i, AbstainedRightly);
      CountStep(cases, i, Abstained);
      assert cases[..i + 1][..i] == cases[..i];
      n := CountCase(c, n);
    }
    assert cases[..|cases|] == cases;
  }

  /** One turn of the loop. */
  method CountCase(c: CaseResult, n: Counts) returns (m: Counts)
    ensures m == CountedRanks(c, CountedVersions(c, n))
  {
    m := CountVersions(c, n);
    m := CountRanks(c, m);
  }

  ghost function CountedRanks(c: CaseResult, n: Counts): Counts {
    n.(hit1 := n.hit1 + One(Hit1(c)), hit3 := n.hit3 + One(Hit3(c)), hit5 := n.hit5 + One(Hit5(c)),
       mrrTotal := n.mrrTotal + (if Positive(c) then ReciprocalRank(c) else 0.0),
       negativeTotal := n.negativeTotal + One(Negative(c)),
       falsePositive := n.falsePositive + One(FalsePositive(c)))
  }

  function CountedVersions(c: CaseResult, n: Counts): Counts {
    n.(wrongVersion := n.wrongVersion + One(VersionMismatch(c)),
       wrongVersionTotal := n.wrongVersionTotal + One(Versioned(c)),
       abstainTruePositive := n.abstainTruePositive + One(AbstainedRightly(c)),
       abstainTotal := n.abstainTotal + One(Abstained(c)))
  }

  method CountRanks(c: CaseResult, n: Counts) returns (m: Counts)
    ensures m == CountedRanks(c, n)
  {
    hide HitWithin, ReciprocalRank;
    if Expected(c) != {} {
      var first := AnyHit(c, 1);
      var third := AnyHit(c, 3);
      var fifth := AnyHit(c, 5);
      var rr := Mrr(c);
      m := n.(hit1 := n.hit1 + One(first), hit3 := n.hit3 + One(third), hit5 := n.hit5 + One(fifth),
              mrrTotal := n.mrrTotal + rr);
    } else {
      m := n.(negativeTotal := n.negativeTotal + 1);
      if c.actualIds != [] {
        m := m.(falsePositive := m.falsePositive + 1);
      }
    }
  }

  method CountVersions(c: CaseResult, n: Counts) returns (m: Counts)
    ensures m == CountedVersions(c, n)
  {
    m := n;
    if Given(c.requestedVersion) {
      m := m.(wrongVersionTotal := m.wrongVersionTotal + 1);
      if Given(c.topHitVersion) && c.topHitVersion != c.requestedVersion {
        m := m.(wrongVersion := m.wrongVersion + 1);
      }
    }
    if c.abstained {
      m := m.(abstainTotal := m.abstainTotal + 1);
      if Expected(c) == {} {
        m := m.(abstainTruePositive := m.abstainTruePositive + 1);
      }
    }
  }

  function Rate(numerator: nat, denominator: nat): real {
    if denominator == 0 then 0.0 else numerator as real / denominator as real
  }

  /** compute_retrieval_metrics, with the counters it divides. */
  method ComputeRetrievalMetrics(cases: seq<CaseResult>) returns (m: RetrievalMetrics, n: Counts)
    ensures Counted(cases, n)
    ensures cases == [] ==> m == RetrievalMetrics(0, 0.0, 0.0, 0.0, 0.0, 0.0, 0.0, 0.0)
    ensures cases != [] ==>
              m == RetrievalMetrics(n.total, Rate(n.hit1, n.total), Rate(n.hit3, n.total), Rate(n.hit5, n.total),
                                    n.mrrTotal / n.total as real,
                                    Rate(n.wrongVersion, n.wrongVersionTotal),
                                    Rate(n.falsePositive, n.negativeTotal),
                                    Rate(n.abstainTruePositive, n.abstainTotal))
  {
    n := CountCases(cases);
    if cases == [] {
      m := RetrievalMetrics(0, 0.0, 0.0, 0.0, 0.0, 0.0, 0.0, 0.0);
    } else {
      m := RetrievalMetrics(n.total, Rate(n.hit1, n.total), Rate(n.hit3, n.total), Rate(n.hit5, n.total),
                            n.mrrTotal / n.total as real,
                            Rate(n.wrongVersion, n.wrongVersionTotal),
                            Rate(n.falsePositive, n.negativeTotal),
                            Rate(n.abstainTruePositive, n.abstainTotal));
    }
  }

  /** A rate times its total is its count, and lies between 0 and 1; a rate of nothing is 0. */
  lemma RateExactly(n: nat, d: nat)
    ensures d > 0 ==> Rate(n, d) * d as real == n as real
    ensures d > 0 && n <= d ==> 0.0 <= Rate(n, d) <= 1.0
    ensures d == 0 ==> Rate(n, d) == 0.0
  {
    if d > 0 && n <= d {
      Divided(n as real, d as real);
    }
  }

  lemma Divided(n: real, d: real)
    requires 0.0 <= n <= d && d > 0.0
    ensures 0.0 <= n / d <= 1.0
  {
    var q := n / d;
    assert q * d == n;
    assert (1.0 - q) * d == d - n;
  }

  /** What the counters of a computed result say of single cases: no rate divides by zero, and none
      exceeds 1. */
  lemma CountsAreBounded(cases: seq<CaseResult>, n: Counts)
    requires Counted(cases, n)
    ensures n.hit1 <= n.total && n.hit3 <= n.total && n.hit5 <= n.total
    ensures n.wrongVersion <= n.wrongVersionTotal && n.falsePositive <= n.negativeTotal
    ensures n.abstainTruePositive <= n.abstainTotal
  {
    CountAtMost(cases, Hit1);
    CountAtMost(cases, Hit3);
    CountAtMost(cases, Hit5);
    CountIncludes(cases, VersionMismatch, Versioned);
    CountIncludes(cases, FalsePositive, Negative);
    CountIncludes(cases, AbstainedRightly, Abstained);
  }

  lemma {:induction false} CountAtMost(cases: seq<CaseResult>, p: CaseResult -> bool)
    ensures Count(cases, p) <= |cases|
  {
    if cases != [] { CountAtMost(cases[..|cases| - 1], p); }
  }

  lemma {:induction false} CountIncludes(cases: seq<CaseResult>, p: CaseResult -> bool, q: CaseResult -> bool)
    requires forall c :: p(c) ==> q(c)
    ensures Count(cases, p) <= Count(cases, q)
  {
    if cases != [] { CountIncludes(cases[..|cases| - 1], p, q); }
  }

  // ---------------------------------------------------------------- the sandwich

  /** The least and the greatest contribution a case can make, given only where it was a hit. */
  function Low(h1: nat, h3: nat, h5: nat): real {
    h1 as real + (h3 as real - h1 as real) / 3.0 + (h5 as real - h3 as real) / 5.0
  }

  function High(h1: nat, h3: nat, h5: nat, positives: nat): real {
    h1 as real + (h3 as real - h1 as real) / 2.0 + (h5 as real - h3 as real) / 4.0
    + (positives as real - h5 as real) / 6.0
  }

  lemma HitWithinIsFirst(c: CaseResult, k: nat)
    ensures HitWithin(c, k) <==> exists i: nat :: IsFirstHit(c, i) && i < k
  {
    if HitWithin(c, k) {
      var i :| 0 <= i < k && i < |c.actualIds| && c.actualIds[i] in Expected(c);
      FirstBefore(c, i);
    }
  }

  lemma {:induction false} FirstBefore(c: CaseResult, i: nat)
    requires i < |c.actualIds| && c.actualIds[i] in Expected(c)
    ensures exists j: nat :: IsFirstHit(c, j) && j <= i
  {
    if j :| 0 <= j < i && c.actualIds[j] in Expected(c) {
      FirstBefore(c, j);
    } else {
      assert IsFirstHit(c, i);
    }
  }

  lemma ReciprocalBounds(i: nat)
    ensures var r := 1.0 / (i + 1) as real;
            && (i == 0 ==> r == 1.0)
            && (1 <= i < 3 ==> 1.0 / 3.0 <= r <= 1.0 / 2.0)
            && (3 <= i < 5 ==> 1.0 / 5.0 <= r <= 1.0 / 4.0)
            && (5 <= i ==> 0.0 <= r <= 1.0 / 6.0)
  {
    if i >= 5 {
      assert (i + 1) as real >= 6.0;
    } else {
      assert i == 0 || i == 1 || i == 2 || i == 3 || i == 4;
    }
  }

  lemma CaseSandwich(c: CaseResult)
    ensures One(Hit1(c)) <= One(Hit3(c)) <= One(Hit5(c)) <= One(Positive(c))
    ensures Positive(c) ==>
              Low(One(Hit1(c)), One(Hit3(c)), One(Hit5(c))) <= ReciprocalRank(c)
              <= High(One(Hit1(c)), One(Hit3(c)), One(Hit5(c)), 1)
  {
    HitWithinIsFirst(c, 1);
    HitWithinIsFirst(c, 3);
    HitWithinIsFirst(c, 5);
    if i: nat :| IsFirstHit(c, i) {
      assert forall j: nat :: IsFirstHit(c, j) ==> j == i;
      ReciprocalBounds(i);
    }
  }

  lemma {:induction false} SumSandwich(cases: seq<CaseResult>)
    ensures Count(cases, Hit1) <= Count(cases, Hit3) <= Count(cases, Hit5) <= Count(cases, Positive) <= |cases|
    ensures Low(Count(cases, Hit1), Count(cases, Hit3), Count(cases, Hit5)) <= MrrTotal(cases)
            <= High(Count(cases, Hit1), Count(cases, Hit3), Count(cases, Hit5), Count(cases, Positive))
    ensures Count(cases, Positive) + Count(cases, Negative) == |cases|
  {
    hide ReciprocalRank, HitWithin;
    if cases != [] {
      SumSandwich(cases[..|cases| - 1]);
      CaseSandwich(cases[|cases| - 1]);
    }
  }

  /** For every list of results: the hit counters are ordered, and the reciprocal-rank sum lies between
      the two values the counters allow. */
  lemma MrrSandwich(cases: seq<CaseResult>, n: Counts)
    requires Counted(cases, n)
    ensures var positives := n.total - n.negativeTotal;
            && n.hit1 <= n.hit3 <= n.hit5 <= positives <= n.total
            && Low(n.hit1, n.hit3, n.hit5) <= n.mrrTotal <= High(n.hit1, n.hit3, n.hit5, positives)
  {
    SumSandwich(cases);
  }
}
