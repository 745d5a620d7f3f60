/**
 * The per-run missed-cleavage distribution (`calculate_mc_per_run`, nested in
 * `process_experiment`): de-duplicate a run's stripped sequences, put each in
 * the bucket of its missed-cleavage count capped at `max_missed_cleavages`,
 * and report the share of distinct sequences in every bucket MC0..MCmax.
 * Index i of a distribution stands for the column `MC{i}`.
 */
module MissedCleavages {
  import opened Table

  /**
   * `count_missed_cleavages(sequence, protease)`, whose definition is not
   * part of this model; all that is assumed of it is a natural-number result.
   */
  type Counter = (string, string) -> nat

  /** `min(mc, max_missed_cleavages)`. */
  function Cap(mc: nat, maxMC: nat): (c: nat)
    ensures c <= maxMC
    ensures c <= mc
    ensures c == mc || c == maxMC
  {
    if mc < maxMC then mc else maxMC
  }

  /** The bucket a sequence is tallied in. */
  function Bucket(pep: string, count: Counter, protease: string, maxMC: nat): nat
  {
    Cap(count(pep, protease), maxMC)
  }

  /** `mc_counts.get(k, 0)`. */
  function Get(m: map<nat, nat>, k: nat): nat
  {
    if k in m then m[k] else 0
  }

  /** How many entries of `peps` fall in bucket `b`. */
  function BucketCount(peps: seq<string>, count: Counter, protease: string, maxMC: nat, b: nat): (n: nat)
    ensures n <= |peps|
  {
    if |peps| == 0 then 0
    else
      BucketCount(peps[..|peps| - 1], count, protease, maxMC, b)
      + (if Bucket(peps[|peps| - 1], count, protease, maxMC) == b then 1 else 0)
  }

  /** The bucket counts of buckets 0..n-1 added up. */
  function BucketSum(peps: seq<string>, count: Counter, protease: string, maxMC: nat, n: nat): nat
  {
    if n == 0 then 0
    else BucketSum(peps, count, protease, maxMC, n - 1) + BucketCount(peps, count, protease, maxMC, n - 1)
  }

  /** `count / total if total > 0 else 0`. */
  function Fraction(n: nat, total: nat): real
  {
    if total > 0 then n as real / total as real else 0.0
  }

  /** The share of each bucket 0..maxMC among the (already distinct) sequences. */
  function Distribution(peps: seq<string>, count: Counter, protease: string, maxMC: nat): (d: seq<real>)
    ensures |d| == maxMC + 1
  {
    seq(maxMC + 1, i requires 0 <= i <= maxMC => Fraction(BucketCount(peps, count, protease, maxMC, i), |peps|))
  }

  function Sum(r: seq<real>): real
  {
    if |r| == 0 then 0.0 else Sum(r[..|r| - 1]) + r[|r| - 1]
  }

  /** `Σ i * r[i]`, the weighted average `avg_MC` when `r` is a distribution. */
  function WeightedSum(r: seq<real>): real
  {
    if |r| == 0 then 0.0 else WeightedSum(r[..|r| - 1]) + (|r| - 1) as real * r[|r| - 1]
  }

  /**
   * The loop over the unique peptides: `mc_counts[mc_capped] += 1` for each.
   * Every key lands in 0..maxMC, so every increment is reported later, and a
   * key is present exactly when its bucket is non-empty.
   */
  method TallyBuckets(unique: seq<string>, count: Counter, protease: string, maxMC: nat)
    returns (mcCounts: map<nat, nat>)
    ensures forall b :: b in mcCounts ==> b <= maxMC
    ensures forall b :: Get(mcCounts, b) == BucketCount(unique, count, protease, maxMC, b)
    ensures forall b :: b in mcCounts <==> BucketCount(unique, count, protease, maxMC, b) > 0
  {
    mcCounts := map[];
    for k := 0 to |unique|
      invariant forall b :: b in mcCounts ==> b <= maxMC
      invariant forall b :: Get(mcCounts, b) == BucketCount(unique[..k], count, protease, maxMC, b)
      invariant forall b :: b in mcCounts ==> mcCounts[b] > 0
    {
      var mc := count(unique[k], protease);
      var mcCapped := if mc < maxMC then mc else maxMC;
      mcCounts := mcCounts[mcCapped := Get(mcCounts, mcCapped) + 1];
      assert unique[..k + 1][..k] == unique[..k];
    }
    assert unique[..|unique|] == unique;
  }

  /**
   * `calculate_mc_per_run(group)`: the distribution of the run's distinct
   * stripped sequences over buckets 0..maxMC. The shares lie in [0, 1] and
   * add up to exactly 1, or are all 0 when the run has no sequences.
   */
  method CalculateMcPerRun(group: seq<Row>, count: Counter, protease: string, maxMC: nat)
    returns (result: seq<real>)
    ensures result == Distribution(Distinct(Project(group, StrippedSequence)), count, protease, maxMC)
    ensures |result| == maxMC + 1
    ensures forall i :: 0 <= i < |result| ==> 0.0 <= result[i] <= 1.0
    ensures Sum(result) == if |group| > 0 then 1.0 else 0.0
    ensures |group| == 0 ==> forall i :: 0 <= i < |result| ==> result[i] == 0.0
  {
    var uniquePeptides := Distinct(Project(group, StrippedSequence));
    var mcCounts := TallyBuckets(uniquePeptides, count, protease, maxMC);
    var total := |uniquePeptides|;
    result := [];
    for i := 0 to maxMC + 1
      invariant |result| == i
      invariant forall j :: 0 <= j < i ==>
        result[j] == Fraction(BucketCount(uniquePeptides, count, protease, maxMC, j), total)
    {
      var c := Get(mcCounts, i);
      result := result + [if total > 0 then c as real / total as real else 0.0];
    }
    assert |group| > 0 ==> Project(group, StrippedSequence)[0] in uniquePeptides;
    DistributionBounds(uniquePeptides, count, protease, maxMC);
    DistributionSum(uniquePeptides, count, protease, maxMC);
  }

  /** Removing the last sequence takes it out of its own bucket only. */
  lemma {:induction false} BucketSumStep(peps: seq<string>, count: Counter, protease: string, maxMC: nat, n: nat)
    requires |peps| > 0
    ensures BucketSum(peps, count, protease, maxMC, n)
         == BucketSum(peps[..|peps| - 1], count, protease, maxMC, n)
            + (if Bucket(peps[|peps| - 1], count, protease, maxMC) < n then 1 else 0)
  {
    if n > 0 {
      BucketSumStep(peps, count, protease, maxMC, n - 1);
    }
  }

  /** The bucket counts add up to the number of sequences tallied. */
  lemma {:induction false} BucketCountsSumToTotal(peps: seq<string>, count: Counter, protease: string, maxMC: nat)
    ensures BucketSum(peps, count, protease, maxMC, maxMC + 1) == |peps|
  {
    if |peps| == 0 {
      BucketSumOfEmpty(peps, count, protease, maxMC, maxMC + 1);
    } else {
      BucketSumStep(peps, count, protease, maxMC, maxMC + 1);
      BucketCountsSumToTotal(peps[..|peps| - 1], count, protease, maxMC);
    }
  }

  lemma {:induction false} BucketSumOfEmpty(peps: seq<string>, count: Counter, protease: string, maxMC: nat, n: nat)
    requires |peps| == 0
    ensures BucketSum(peps, count, protease, maxMC, n) == 0
  {
    if n > 0 {
      BucketSumOfEmpty(peps, count, protease, maxMC, n - 1);
    }
  }

  /** The first n shares add up to the first n bucket counts over the total. */
  lemma {:induction false} DistributionPrefixSum(peps: seq<string>, count: Counter, protease: string, maxMC: nat, n: nat)
    requires |peps| > 0
    requires n <= maxMC + 1
    ensures Sum(Distribution(peps, count, protease, maxMC)[..n])
         == BucketSum(peps, count, protease, maxMC, n) as real / |peps| as real
  {
    var d := Distribution(peps, count, protease, maxMC);
    if n > 0 {
      DistributionPrefixSum(peps, count, protease, maxMC, n - 1);
      assert d[..n][..n - 1] == d[..n - 1];
      assert Sum(d[..n]) == Sum(d[..n - 1]) + d[n - 1];
      FractionAdd(BucketSum(peps, count, protease, maxMC, n - 1),
                  BucketCount(peps, count, protease, maxMC, n - 1), |peps|);
    }
  }

  lemma {:induction false} FractionWhole(t: nat)
    requires t > 0
    ensures t as real / t as real == 1.0
  {
  }

  lemma {:induction false} FractionAdd(a: nat, c: nat, t: nat)
    requires t > 0
    ensures a as real / t as real + c as real / t as real == (a + c) as real / t as real
  {
  }

  /**
   * The shares of a distribution add up to exactly 1 when there is at least
   * one sequence, and to 0 when there is none.
   */
  lemma {:induction false} DistributionSum(peps: seq<string>, count: Counter, protease: string, maxMC: nat)
    ensures Sum(Distribution(peps, count, protease, maxMC)) == if |peps| > 0 then 1.0 else 0.0
  {
    var d := Distribution(peps, count, protease, maxMC);
    if |peps| > 0 {
      DistributionPrefixSum(peps, count, protease, maxMC, maxMC + 1);
      BucketCountsSumToTotal(peps, count, protease, maxMC);
      assert d[..maxMC + 1] == d;
      FractionWhole(|peps|);
    } else {
      AllZeroSum(d);
    }
  }

  lemma {:induction false} AllZeroSum(r: seq<real>)
    requires forall i :: 0 <= i < |r| ==> r[i] == 0.0
    ensures Sum(r) == 0.0
  {
    if |r| > 0 {
      AllZeroSum(r[..|r| - 1]);
    }
  }

  /** Every share lies in [0, 1]; with no sequences every share is 0. */
  lemma {:induction false} DistributionBounds(peps: seq<string>, count: Counter, protease: string, maxMC: nat)
    ensures forall i :: 0 <= i <= maxMC ==> 0.0 <= Distribution(peps, count, protease, maxMC)[i] <= 1.0
    ensures |peps| == 0 ==> forall i :: 0 <= i <= maxMC ==> Distribution(peps, count, protease, maxMC)[i] == 0.0
  {
    forall i | 0 <= i <= maxMC
      ensures 0.0 <= Distribution(peps, count, protease, maxMC)[i] <= 1.0
    {
      var n := BucketCount(peps, count, protease, maxMC, i);
      if |peps| > 0 {
        assert n as real <= |peps| as real;
        assert n as real / |peps| as real <= 1.0;
      }
    }
  }

  /** On sequences without repeats, a bucket count is the size of a set. */
  lemma {:induction false} BucketCountAsSet(peps: seq<string>, count: Counter, protease: string, maxMC: nat, b: nat)
    requires NoDuplicates(peps)
    ensures BucketCount(peps, count, protease, maxMC, b)
         == |set p | p in peps && Bucket(p, count, protease, maxMC) == b|
  {
    if |peps| > 0 {
      var init := peps[..|peps| - 1];
      var last := peps[|peps| - 1];
      assert peps == init + [last];
      assert NoDuplicates(init);
      BucketCountAsSet(init, count, protease, maxMC, b);
      var s := set p | p in init && Bucket(p, count, protease, maxMC) == b;
      assert last !in s;
      if Bucket(last, count, protease, maxMC) == b {
        assert (set p | p in peps && Bucket(p, count, protease, maxMC) == b) == s + {last};
      } else {
        assert (set p | p in peps && Bucket(p, count, protease, maxMC) == b) == s;
      }
    }
  }

  /** Two repeat-free lists of the same sequences have the same distribution. */
  lemma {:induction false} SameSetSameDistribution(u1: seq<string>, u2: seq<string>, count: Counter, protease: string, maxMC: nat)
    requires NoDuplicates(u1) && NoDuplicates(u2)
    requires forall p :: p in u1 <==> p in u2
    ensures Distribution(u1, count, protease, maxMC) == Distribution(u2, count, protease, maxMC)
  {
    assert Elems(u1) == Elems(u2);
    NoDuplicatesCardinality(u1);
    NoDuplicatesCardinality(u2);
    forall i | 0 <= i <= maxMC
      ensures BucketCount(u1, count, protease, maxMC, i) == BucketCount(u2, count, protease, maxMC, i)
    {
      BucketCountAsSet(u1, count, protease, maxMC, i);
      BucketCountAsSet(u2, count, protease, maxMC, i);
      assert (set p | p in u1 && Bucket(p, count, protease, maxMC) == i)
          == (set p | p in u2 && Bucket(p, count, protease, maxMC) == i);
    }
  }

  /**
   * The distribution of a run depends only on which stripped sequences it
   * holds: neither their order nor repeated rows change it.
   */
  lemma {:induction false} SameSequencesSameDistribution(g1: seq<Row>, g2: seq<Row>, count: Counter, protease: string, maxMC: nat)
    requires Elems(Project(g1, StrippedSequence)) == Elems(Project(g2, StrippedSequence))
    ensures Distribution(Distinct(Project(g1, StrippedSequence)), count, protease, maxMC)
         == Distribution(Distinct(Project(g2, StrippedSequence)), count, protease, maxMC)
  {
    var s1 := Project(g1, StrippedSequence);
    var s2 := Project(g2, StrippedSequence);
    forall p ensures p in Distinct(s1) <==> p in Distinct(s2) {
      assert p in s1 <==> p in Elems(s1);
      assert p in s2 <==> p in Elems(s2);
    }
    SameSetSameDistribution(Distinct(s1), Distinct(s2), count, protease, maxMC);
  }

  /**
   * Adding another row whose stripped sequence the run already holds leaves
   * the distribution unchanged.
   */
  lemma {:induction false} DuplicateRowIgnored(group: seq<Row>, row: Row, count: Counter, protease: string, maxMC: nat)
    requires row.stripped in Project(group, StrippedSequence)
    ensures Distribution(Distinct(Project(group + [row], StrippedSequence)), count, protease, maxMC)
         == Distribution(Distinct(Project(group, StrippedSequence)), count, protease, maxMC)
  {
    ProjectAppend(group, row, StrippedSequence);
    var s := Project(group, StrippedSequence);
    assert (s + [row.stripped])[..|s|] == s;
  }

  /**
   * With non-negative shares, `Σ i * r[i]` lies between 0 and
   * (|r| - 1) times the sum of the shares.
   */
  lemma {:induction false} WeightedSumBounds(r: seq<real>)
    requires forall i :: 0 <= i < |r| ==> 0.0 <= r[i]
    ensures 0.0 <= Sum(r)
    ensures 0.0 <= WeightedSum(r) <= (|r| - 1) as real * Sum(r)
  {
    if |r| > 0 {
      var init := r[..|r| - 1];
      var x := r[|r| - 1];
      WeightedSumBounds(init);
      var k := (|r| - 1) as real;
      assert 0.0 <= k * x;
      assert (k - 1.0) * Sum(init) <= k * Sum(init);
      assert k * Sum(init) + k * x == k * (Sum(init) + x);
    }
  }

  /**
   * `avg_MC` of a distribution over buckets 0..maxMC lies in [0, maxMC]; it
   * is 0 when all shares are 0.
   */
  lemma {:induction false} AverageInRange(r: seq<real>, maxMC: nat)
    requires |r| == maxMC + 1
    requires forall i :: 0 <= i < |r| ==> 0.0 <= r[i]
    requires Sum(r) == 1.0 || forall i :: 0 <= i < |r| ==> r[i] == 0.0
    ensures 0.0 <= WeightedSum(r) <= maxMC as real
    ensures (forall i :: 0 <= i < |r| ==> r[i] == 0.0) ==> WeightedSum(r) == 0.0
  {
    WeightedSumBounds(r);
    if forall i :: 0 <= i < |r| ==> r[i] == 0.0 {
      AllZeroSum(r);
    }
  }
}
