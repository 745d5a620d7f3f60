/**
 * `process_experiment`: select one experiment's rows, count distinct
 * peptides, precursors and protein groups per run, attach each run's
 * missed-cleavage distribution and its weighted average `avg_MC`, and
 * broadcast the experiment-wide CV pass counts, distinct totals and labels
 * onto every run's row.
 */
module Experiment {
  import opened Table
  import opened MissedCleavages

  /** One row of `_df_agg` before the merge: a run and its distinct counts. */
  datatype RunCounts = RunCounts(run: string, peptide: nat, precursor: nat, protein: nat)

  /** One row of the returned table. */
  datatype RunSummary = RunSummary(
    run: string,
    peptide: nat,
    precursor: nat,
    protein: nat,
    mc: seq<real>,
    avgMC: real,
    pg20: nat,
    pr20: nat,
    totalPeptides: nat,
    totalProteinGroups: nat,
    totalPrecursors: nat,
    instrument: string,
    acquisitionMethod: string)

  /** The quantities of the rows whose `key` column holds `k`, in row order. */
  function GroupValues(rows: seq<Row>, key: Column, k: string, q: Quantity): seq<real>
  {
    if rows == [] then []
    else (if Cell(rows[0], key) == k then [Value(rows[0], q)] else [])
         + GroupValues(rows[1..], key, k, q)
  }

  /**
   * `(df.groupby(key)[q].agg(['mean', 'std'])['cv'] < 0.2).sum()`: the number
   * of groups whose values pass the CV test `cvBelow`, which stands for the
   * floating-point test std/mean < 0.2. It never exceeds the number of groups.
   */
  function CvPassCount(rows: seq<Row>, key: Column, q: Quantity, cvBelow: seq<real> -> bool): (n: nat)
    ensures n <= NUnique(Project(rows, key))
  {
    var passing := set k | k in Project(rows, key) && cvBelow(GroupValues(rows, key, k, q));
    assert passing <= Elems(Project(rows, key));
    SubsetCardinality(passing, Elems(Project(rows, key)));
    |passing|
  }

  /** The `nunique` aggregation of one run's rows. */
  function CountsOfRun(rows: seq<Row>, run: string): RunCounts
  {
    var g := RowsOfRun(rows, run);
    RunCounts(run, NUnique(Project(g, ModifiedSequence)), NUnique(Project(g, PrecursorId)),
              NUnique(Project(g, ProteinGroup)))
  }

  /** `groupby('Run').agg({...: 'nunique'})`: one row per run. */
  function AggregatePerRun(rows: seq<Row>): (agg: seq<RunCounts>)
    ensures |agg| == |Runs(rows)|
    ensures forall j :: 0 <= j < |agg| ==> agg[j].run == Runs(rows)[j]
  {
    var runs := Runs(rows);
    seq(|runs|, j requires 0 <= j < |runs| => CountsOfRun(rows, runs[j]))
  }

  /**
   * Per run, each distinct count is at least 1 and at most the run's number
   * of rows, and the precursor and protein-group counts are at most the
   * experiment-wide totals of the same column.
   */
  lemma {:induction false} RunCountsBounded(rows: seq<Row>, run: string)
    requires run in Runs(rows)
    ensures var c := CountsOfRun(rows, run);
      var n := |RowsOfRun(rows, run)|;
      && 1 <= c.peptide <= n
      && 1 <= c.precursor <= n
      && 1 <= c.protein <= n
      && c.precursor <= NUnique(Project(rows, PrecursorId))
      && c.protein <= NUnique(Project(rows, ProteinGroup))
  {
    RunGroupNonEmpty(rows, run);
    GroupColumnSubset(rows, run, PrecursorId);
    NUniqueMonotone(Project(RowsOfRun(rows, run), PrecursorId), Project(rows, PrecursorId));
    GroupColumnSubset(rows, run, ProteinGroup);
    NUniqueMonotone(Project(RowsOfRun(rows, run), ProteinGroup), Project(rows, ProteinGroup));
  }

  /**
   * `total_peptides` counts stripped sequences while the per-run `peptide`
   * counts modified sequences, so a run's peptide count can exceed the
   * experiment-wide total: one stripped sequence seen in two modified forms.
   */
  lemma {:induction false} RunPeptidesMayExceedTotal()
    ensures exists rows: seq<Row>, run: string ::
      run in Runs(rows) && CountsOfRun(rows, run).peptide > NUnique(Project(rows, StrippedSequence))
  {
    var plain := Row("X_A1", 0.0, 1.0, 1.0, "PEPTIDEK2", "P1", "PEPTIDEK", "PEPTIDEK", "G1");
    var oxidised := plain.(precursorId := "PEPTIDE(ox)K2", modified := "PEPTIDE(ox)K");
    var rows := [plain, oxidised];
    assert Project(rows, Run)[0] == "X_A1";
    assert RowsOfRun(rows, "X_A1") == rows;
    assert Project(rows, ModifiedSequence) == ["PEPTIDEK", "PEPTIDE(ox)K"];
    assert Project(rows, StrippedSequence) == ["PEPTIDEK", "PEPTIDEK"];
    assert Elems(Project(rows, ModifiedSequence)) == {"PEPTIDEK", "PEPTIDE(ox)K"};
    assert Elems(Project(rows, StrippedSequence)) == {"PEPTIDEK"};
    assert CountsOfRun(rows, "X_A1").peptide == 2;
  }

  /**
   * The `avg_MC` loop: for i in 0..maxMC, add column MCi times i to every
   * row's running total. Each row ends with the weighted sum of its shares.
   */
  method AverageMissedCleavages(mcRows: seq<seq<real>>, maxMC: nat) returns (avg: seq<real>)
    requires forall j :: 0 <= j < |mcRows| ==> |mcRows[j]| == maxMC + 1
    ensures |avg| == |mcRows|
    ensures forall j :: 0 <= j < |avg| ==> avg[j] == WeightedSum(mcRows[j])
  {
    avg := seq(|mcRows|, j => 0.0);
    for i := 0 to maxMC + 1
      invariant |avg| == |mcRows|
      invariant forall j :: 0 <= j < |avg| ==> avg[j] == WeightedSum(mcRows[j][..i])
    {
      forall j | 0 <= j < |mcRows| ensures mcRows[j][..i + 1][..i] == mcRows[j][..i] {
      }
      avg := seq(|avg|, j requires 0 <= j < |avg| => avg[j] + mcRows[j][i] * i as real);
    }
    forall j | 0 <= j < |mcRows| ensures mcRows[j][..maxMC + 1] == mcRows[j] {
    }
  }

  /** The distribution `calculate_mc_per_run` gives the rows of one run. */
  function RunDistribution(rows: seq<Row>, run: string, count: Counter, protease: string, maxMC: nat): seq<real>
  {
    Distribution(Distinct(Project(RowsOfRun(rows, run), StrippedSequence)), count, protease, maxMC)
  }

  /**
   * `df.groupby('Run').apply(calculate_mc_per_run)`: a distribution for
   * every run, computed from that run's rows alone, and for nothing else.
   */
  method McPerRun(rows: seq<Row>, count: Counter, protease: string, maxMC: nat)
    returns (mcPerRun: map<string, seq<real>>)
    ensures forall r :: r in mcPerRun <==> r in Runs(rows)
    ensures forall r :: r in mcPerRun ==> mcPerRun[r] == RunDistribution(rows, r, count, protease, maxMC)
  {
    var runs := Runs(rows);
    mcPerRun := map[];
    for k := 0 to |runs|
      invariant forall r :: r in mcPerRun <==> r in runs[..k]
      invariant forall r :: r in mcPerRun ==> mcPerRun[r] == RunDistribution(rows, r, count, protease, maxMC)
    {
      var dist := CalculateMcPerRun(RowsOfRun(rows, runs[k]), count, protease, maxMC);
      assert runs[..k + 1] == runs[..k] + [runs[k]];
      mcPerRun := mcPerRun[runs[k] := dist];
    }
    assert runs[..|runs|] == runs;
  }

  /**
   * The per-run part of `process_experiment`: the distinct counts of every
   * run, merged on `Run` (left) with the runs' distributions, which finds
   * every run, and the `avg_MC` column over the merged rows.
   */
  method PerRunTable(df: seq<Row>, count: Counter, protease: string, maxMC: nat)
    returns (agg: seq<RunCounts>, mcRows: seq<seq<real>>, avg: seq<real>)
    ensures |agg| == |mcRows| == |avg| == |Runs(df)|
    ensures forall j :: 0 <= j < |agg| ==>
      && agg[j] == CountsOfRun(df, Runs(df)[j])
      && mcRows[j] == RunDistribution(df, Runs(df)[j], count, protease, maxMC)
      && avg[j] == WeightedSum(mcRows[j])
  {
    var mcPerRun := McPerRun(df, count, protease, maxMC);
    agg := AggregatePerRun(df);
    // merge(mc_per_run, on='Run', how='left'): every run finds its distribution
    mcRows := seq(|agg|, j requires 0 <= j < |agg| => mcPerRun[agg[j].run]);
    avg := AverageMissedCleavages(mcRows, maxMC);
  }

  /** A returned row holds the run's own distinct counts, distribution and `avg_MC`. */
  ghost predicate SummarizesRun(s: RunSummary, rows: seq<Row>, run: string,
                                count: Counter, protease: string, maxMC: nat)
  {
    var g := RowsOfRun(rows, run);
    && s.run == run
    && s.peptide == NUnique(Project(g, ModifiedSequence))
    && s.precursor == NUnique(Project(g, PrecursorId))
    && s.protein == NUnique(Project(g, ProteinGroup))
    && s.mc == RunDistribution(rows, run, count, protease, maxMC)
    && s.avgMC == WeightedSum(s.mc)
  }

  /** A returned row holds the experiment-wide CV pass counts, totals and labels. */
  ghost predicate CarriesExperimentScalars(s: RunSummary, rows: seq<Row>, experiment: ExperimentRecord,
                                           pgCvBelow: seq<real> -> bool, prCvBelow: seq<real> -> bool)
  {
    && s.pg20 == CvPassCount(rows, ProteinGroup, PgMaxLFQ, pgCvBelow)
    && s.pr20 == CvPassCount(rows, PrecursorId, PrecursorNormalised, prCvBelow)
    && s.totalPeptides == NUnique(Project(rows, StrippedSequence))
    && s.totalProteinGroups == NUnique(Project(rows, ProteinGroup))
    && s.totalPrecursors == NUnique(Project(rows, PrecursorId))
    && s.instrument == experiment.instrument
    && s.acquisitionMethod == experiment.acquisitionMethod
  }

  /**
   * The row of every run found in the rows has shares adding up to exactly
   * 1, `avg_MC` in [0, maxMC], and counts within the experiment's totals.
   */
  lemma {:induction false} SummaryBounds(s: RunSummary, rows: seq<Row>, run: string, experiment: ExperimentRecord,
                      count: Counter, protease: string, maxMC: nat,
                      pgCvBelow: seq<real> -> bool, prCvBelow: seq<real> -> bool)
    requires run in Runs(rows)
    requires SummarizesRun(s, rows, run, count, protease, maxMC)
    requires CarriesExperimentScalars(s, rows, experiment, pgCvBelow, prCvBelow)
    ensures Sum(s.mc) == 1.0
    ensures 0.0 <= s.avgMC <= maxMC as real
    ensures 1 <= s.precursor <= s.totalPrecursors
    ensures 1 <= s.protein <= s.totalProteinGroups
    ensures s.pg20 <= s.totalProteinGroups && s.pr20 <= s.totalPrecursors
  {
    var u := Distinct(Project(RowsOfRun(rows, run), StrippedSequence));
    RunGroupNonEmpty(rows, run);
    RunCountsBounded(rows, run);
    assert Project(RowsOfRun(rows, run), StrippedSequence)[0] in u;
    DistributionSum(u, count, protease, maxMC);
    DistributionBounds(u, count, protease, maxMC);
    AverageInRange(s.mc, maxMC);
  }

  /**
   * `process_experiment`: one row per run of the selected rows. Each row
   * carries its run's own distinct counts and missed-cleavage distribution
   * (the left merge finds every run), `avg_MC` is the weighted sum of that
   * distribution, and the CV pass counts, distinct totals and labels are the
   * same on every row. Every run's shares add up to exactly 1, `avg_MC` lies
   * in [0, maxMC], and a run's precursor and protein-group counts never
   * exceed the totals. An experiment that selects no rows yields no rows.
   */
  method ProcessExperiment(dfFull: seq<Row>, experiment: ExperimentRecord, combinedMask: Mask,
                           count: Counter, protease: string, maxMC: nat,
                           pgCvBelow: seq<real> -> bool, prCvBelow: seq<real> -> bool)
    returns (out: seq<RunSummary>)
    ensures var df := Select(dfFull, experiment.fileTags, combinedMask);
      && |out| == |Runs(df)|
      && (out == [] <==> df == [])
    ensures var df := Select(dfFull, experiment.fileTags, combinedMask);
      forall j :: 0 <= j < |out| ==>
        && SummarizesRun(out[j], df, Runs(df)[j], count, protease, maxMC)
        && CarriesExperimentScalars(out[j], df, experiment, pgCvBelow, prCvBelow)
    ensures forall j :: 0 <= j < |out| ==>
      && Sum(out[j].mc) == 1.0
      && 0.0 <= out[j].avgMC <= maxMC as real
      && 1 <= out[j].precursor <= out[j].totalPrecursors
      && 1 <= out[j].protein <= out[j].totalProteinGroups
      && out[j].pg20 <= out[j].totalProteinGroups
      && out[j].pr20 <= out[j].totalPrecursors
  {
    var df := Select(dfFull, experiment.fileTags, combinedMask);
    var pg20 := CvPassCount(df, ProteinGroup, PgMaxLFQ, pgCvBelow);
    var pr20 := CvPassCount(df, PrecursorId, PrecursorNormalised, prCvBelow);

    var runs := Runs(df);
    var agg, mcRows, avg := PerRunTable(df, count, protease, maxMC);

    var totalPeptides := NUnique(Project(df, StrippedSequence));
    var totalProteinGroups := NUnique(Project(df, ProteinGroup));
    var totalPrecursors := NUnique(Project(df, PrecursorId));
    out := seq(|agg|, j requires 0 <= j < |agg| =>
      RunSummary(agg[j].run, agg[j].peptide, agg[j].precursor, agg[j].protein, mcRows[j], avg[j],
                 pg20, pr20, totalPeptides, totalProteinGroups, totalPrecursors,
                 experiment.instrument, experiment.acquisitionMethod));

    forall j | 0 <= j < |out|
      ensures SummarizesRun(out[j], df, runs[j], count, protease, maxMC)
      ensures CarriesExperimentScalars(out[j], df, experiment, pgCvBelow, prCvBelow)
      ensures Sum(out[j].mc) == 1.0
      ensures 0.0 <= out[j].avgMC <= maxMC as real
      ensures 1 <= out[j].precursor <= out[j].totalPrecursors
      ensures 1 <= out[j].protein <= out[j].totalProteinGroups
      ensures out[j].pg20 <= out[j].totalProteinGroups && out[j].pr20 <= out[j].totalPrecursors
    {
      SummaryBounds(out[j], df, runs[j], experiment, count, protease, maxMC, pgCvBelow, prCvBelow);
    }
    assert df != [] ==> Project(df, Run)[0] in runs;
  }
}
