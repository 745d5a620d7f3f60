# Per-run missed-cleavage summary and pattern lists, in Dafny

This project models two pieces of `helper_functions.py`:

- **`process_experiment`.** It takes one experiment's rows of a proteomics quantification table (selected by the experiment's file tags) and returns one row per run. Each row holds:
  - the run's distinct modified-sequence, precursor and protein-group counts;
  - the run's missed-cleavage distribution `MC0..MCmax`, computed by the nested `calculate_mc_per_run`;
  - the weighted average `avg_MC` of that distribution;
  - the experiment-wide CV pass counts, distinct totals and labels, the same on every row.
- **`generate_pattern_list`.** It crosses a list of prefixes with an inclusive range of numbers and puts a common prefix before every element.

The modules are:

- `Table` (`Table.dfy`): the table as a sequence of `Row` values, plus the pandas operations the code relies on:
  - boolean-mask selection;
  - `drop_duplicates(keep='first')`;
  - `nunique`;
  - the groups and keys of `groupby('Run')`.
- `MissedCleavages` (`MissedCleavages.dfy`): the nested `calculate_mc_per_run`.
  - Two methods follow its two loops: the tally into the `mc_counts` map and the loop that fills the result.
  - `TallyBuckets` is proved against the specification function `BucketCount`, and `CalculateMcPerRun` against `Distribution`.
  - Lemmas prove that the bucket counts add up to the number of distinct sequences, that the shares add up to exactly 1, that every share lies in [0, 1], that repeated sequences are ignored, and that `avg_MC` lies in [0, max].
- `Experiment` (`Experiment.dfy`): the rest of `process_experiment`:
  - the per-run `nunique` aggregation;
  - the left merge with the distributions;
  - the `avg_MC` accumulation loop, as a method;
  - the experiment-wide columns.
- `PatternList` (`PatternList.dfy`): `generate_pattern_list` with Python's `str` of an integer, its length, its element-by-element shape, and its documented example.

Two functions the code calls are defined elsewhere, so they are parameters here:

- `count_missed_cleavages(sequence, protease)` is a parameter of type `Counter`. Nothing is assumed of it except that it returns a natural number.
- `create_combined_mask(df, tags)` is a per-row yes/no parameter of type `Mask`.

Shares and averages are exact `real` numbers. Column `MC{i}` of a distribution is index `i` of a `seq<real>` of length `max_missed_cleavages + 1`.

## Model

| member | source | states |
|---|---|---|
| Table.Select | helper_functions.py:4-5 | `df_full[mask]` keeps exactly the rows the mask accepts for the experiment's tags, and no more rows than there were |
| Table.Distinct | helper_functions.py:18 | `drop_duplicates` keeps every value that occurs, each value once, and is no longer than its input |
| Table.NUnique | helper_functions.py:41-49 | `nunique` is the number of distinct values: at most the length, and 0 exactly when the column is empty |
| Table.NUniqueMonotone | helper_functions.py:64-66 | a column whose values all occur in another column has at most as many distinct values |
| Table.RowsOfRun | helper_functions.py:38 | a run's group holds exactly the rows whose `Run` is that run |
| Table.RunGroupNonEmpty | helper_functions.py:38-41 | every group key of `groupby('Run')` has at least one row |
| Table.RunsAreTheRunColumn | helper_functions.py:38-41 | a string is a group key exactly when some row has it as its `Run` |
| Table.GroupColumnSubset | helper_functions.py:41-49 | the values of a column within one run all occur in the experiment's column |
| MissedCleavages.Cap | helper_functions.py:24 | the capped count is at most `max_missed_cleavages` and at most the count, and it is one of the two |
| MissedCleavages.BucketCount | helper_functions.py:22-25 | no bucket holds more sequences than were tallied |
| MissedCleavages.Distribution | helper_functions.py:31-33 | the distribution has exactly `max_missed_cleavages + 1` entries |
| MissedCleavages.TallyBuckets | helper_functions.py:20-25 | after the loop every key of `mc_counts` is in 0..max, so every increment lands in a reported bucket; `mc_counts.get(b, 0)` is the number of distinct sequences in bucket b; a key is present exactly when its bucket is non-empty |
| MissedCleavages.CalculateMcPerRun | helper_functions.py:15-35 | the result is the distribution of the run's distinct stripped sequences: `max + 1` shares, each in [0, 1], adding up to exactly 1 for a run with rows, all 0 (no division by zero) for a run without |
| MissedCleavages.BucketCountsSumToTotal | helper_functions.py:22-27 | the bucket counts of buckets 0..max add up to the number of sequences tallied |
| MissedCleavages.DistributionSum | helper_functions.py:27-33 | the shares add up to exactly 1 when there is a sequence, and to 0 when there is none |
| MissedCleavages.DistributionBounds | helper_functions.py:31-33 | every share lies in [0, 1]; with no sequences every share is 0 |
| MissedCleavages.BucketCountAsSet | helper_functions.py:18-25 | on a repeat-free list, a bucket count is the number of distinct sequences in that bucket |
| MissedCleavages.SameSetSameDistribution | helper_functions.py:18-33 | two repeat-free lists of the same sequences, in any order, give the same distribution |
| MissedCleavages.SameSequencesSameDistribution | helper_functions.py:18-33 | two runs holding the same stripped sequences, whatever their order or repetitions, get the same distribution |
| MissedCleavages.DuplicateRowIgnored | helper_functions.py:18 | adding a row whose stripped sequence the run already holds leaves the distribution unchanged |
| MissedCleavages.WeightedSumBounds | helper_functions.py:55-58 | with non-negative shares, `Σ i·r[i]` lies between 0 and `(len - 1)` times the sum of the shares |
| MissedCleavages.AverageInRange | helper_functions.py:55-58 | for shares adding up to 1, or all 0, `avg_MC` lies in [0, max], and it is 0 when all shares are 0 |
| Experiment.CvPassCount | helper_functions.py:62-63 | the number of groups passing the CV test never exceeds the number of distinct keys |
| Experiment.AggregatePerRun | helper_functions.py:41-49 | one aggregated row per group key of `groupby('Run')`, in the order of `Runs(rows)` |
| Experiment.RunCountsBounded | helper_functions.py:41-66 | each per-run distinct count is at least 1 and at most the run's row count; the precursor and protein-group counts are at most the experiment's totals of the same column |
| Experiment.RunPeptidesMayExceedTotal | helper_functions.py:42-64 | a run's `peptide` count (modified sequences) can exceed `total_peptides` (stripped sequences): two modified forms of one stripped sequence |
| Experiment.AverageMissedCleavages | helper_functions.py:55-58 | the accumulation loop leaves every row holding `Σ i·MCi` of its own distribution |
| Experiment.McPerRun | helper_functions.py:38 | `groupby('Run').apply(calculate_mc_per_run)` gives a distribution for every run, and only for runs, each computed from that run's rows alone |
| Experiment.PerRunTable | helper_functions.py:38-58 | per run, the row holds the run's own distinct counts and its own distribution (the left merge finds every run), and `avg_MC` is the weighted sum of that distribution |
| Experiment.SummaryBounds | helper_functions.py:27-66 | a run's summary row has shares adding up to exactly 1, `avg_MC` in [0, max], precursor and protein counts between 1 and the totals, and `PG20`/`Pr20` within the totals |
| Experiment.ProcessExperiment | helper_functions.py:1-71 | one row per run of the selected rows and none when nothing is selected; each row has its run's counts, distribution and `avg_MC` plus the experiment-wide CV counts, totals and labels; with the bounds above |
| PatternList.IntToStringRoundTrip | helper_functions.py:128 | the number in an element can be read back from its text (`str` loses nothing) |
| PatternList.IntToStringInjective | helper_functions.py:128 | different numbers are written differently |
| PatternList.SinglePrefixAsList | helper_functions.py:125-126 | a bare string prefix gives the same list as the one-element list holding it |
| PatternList.ExpandLength | helper_functions.py:128 | the comprehension has `len(prefixes) * max(0, end - start + 1)` elements |
| PatternList.ExpandAt | helper_functions.py:128 | element `p * n + i` is the i-th number of prefix p's block: prefix-major, numbers ascending |
| PatternList.PatternListShape | helper_functions.py:125-128 | `len(prefixes) * n` elements, `n = max(0, end - start + 1)`; element k is `prefix_all + prefixes[k / n] + str(start + k % n)` |
| PatternList.DocumentedExample | helper_functions.py:122-123 | prefixes A, B, C with 1..4 and `SPEC_` give SPEC_A1 … SPEC_C4 in that order |

## Left out

- The bodies of `count_missed_cleavages` and `create_combined_mask` are not part of this model. Both are parameters.
- The CV statistics (helper_functions.py:8-12, 62-63) are left out: the floating-point mean, standard deviation, division and NaN comparisons.
  - `PG20` and `Pr20` are modelled as the number of group keys whose values satisfy a parameter predicate `cvBelow`, which stands for `std / mean < 0.2`.
  - The code applies no minimum-replicate condition before counting a group, and neither does the model.
- The order of runs is not modelled. `groupby('Run')` sorts its keys; the model lists runs in order of first occurrence. Every statement about a run's row holds for each run whatever the order.
- NaN cells are not modelled: `nunique` skips them, and `Row` has no missing values.
- Float rounding is not modelled. Shares and `avg_MC` are exact rationals, so "add up to exactly 1" holds for the model, not for the floating-point sums.
- The `MC{i}` column names are not modelled. Column `MC{i}` is index i of the distribution.
- `Experiment.ProcessExperiment`: on an empty selection the model returns no rows. It does not model what pandas does with the `apply`/`merge` of an empty frame (missing `MC` columns).
- `load_parquet_cached` (helper_functions.py:99-105) is left out: file I/O through a process-wide cache, with no logic of its own.
- The top-level `calculate_mc_per_run` (helper_functions.py:73-93) is left out. It reads `protease` and `max_missed_cleavages`, which are not defined at module level, so any call to it fails. The nested version at line 15 is the one modelled.
- The defaults `protease='trypsin'` and `max_missed_cleavages=2` are not modelled. Both are ordinary parameters of `ProcessExperiment`.
- A negative `max_missed_cleavages` is not modelled: it is a `nat` throughout. The Python code never checks its sign.
- Columns the code never reads (`PG.Q.Value`, `Genes`) are carried in `Row` but not used.
