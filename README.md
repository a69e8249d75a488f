# compare_effect, modelled in Dafny

This project models the data path of gwaslab's `compare_effect`
(`src/gwaslab/compare_effect.py`). The function compares the effect sizes of
two GWAS summary-statistics sources. It keeps the variants present in both
sources. From those, it takes each source's significant variants: the lead
variants that `getsig` picks, or the variants of a given list. It outer-joins
the two significant sets on SNPID and left-joins each source's alleles and
effect columns (EFFECT/SE, or OR/OR_L/OR_H). It then backfills both P columns
from the full files and sets a 2-bit significance indicator. With no list
given, it merges CHR and POS across the sources. Finally it aligns source 2's
effect onto source 1's effect allele and partitions the table into four
indicator classes with incomplete rows dropped. In odds-ratio mode the bounds
become distances from the OR, and a swap takes reciprocals.

Layout:

- `wrappers.dfy`: `Option` and `Result`.
- `sources.dfy` (module `Sources`): source rows, the mode string, the common set and the significant sets.
- `merge.dfy` (module `Merge`): the merged row, the outer join, the left joins and the P backfill.
- `classify.dfy` (module `Significance`): the indicator, the merged CHR/POS, `dropna`, the classes and the degrees of freedom.
- `harmonize.dfy` (module `Harmonize`): the beta and odds-ratio allele alignment.
- `table.dfy` (module `MergedTables`): the merged table as a mutable object. Its in-place steps (`update`, the indicator writes, the CHR/POS columns, the aligned-column writes) are methods, each proved equal to the pure step it performs.
- `compare_effect.dfy` (module `Reconciliation`):
  - the whole run as the function `Reconcile`;
  - the same run as the step-by-step method `CompareEffect`, proved equal to it;
  - the lemmas about the table and the classes that a run produces.

Conventions:

- A file is a map from SNPID to a row. A missing cell (NaN) is `None`.
- Comparisons follow pandas. `P < sig_level` is false on a missing P. `EA_1 != EA_2` is true when either allele is missing, so such a row is swapped.

## Model

| member | source | states |
|---|---|---|
| Sources.ParseMode | src/gwaslab/compare_effect.py:40-41 | The mode is rejected exactly when it is not one of the five accepted spellings. It is beta exactly for Beta/beta/BETA (the test repeated at lines 130, 137, 162, 169 and 227) and odds ratio exactly for OR/or. |
| Sources.CommonIds | src/gwaslab/compare_effect.py:45-59 | A variant is common exactly when it is in both sources. |
| Sources.KeepIds | src/gwaslab/compare_effect.py:72 | `isin` filtering keeps exactly the rows whose ID is in the set, unchanged. |
| Sources.LeadColumns | src/gwaslab/compare_effect.py:49-52 | The selection table keeps every variant and its P. CHR and POS are kept when no list is given. |
| Sources.SelectSig | src/gwaslab/compare_effect.py:79-86 | A significant set is a sub-table of unchanged rows. With the list it holds exactly the listed variants; otherwise exactly those the picker names. |
| Sources.Truthy | src/gwaslab/compare_effect.py:111 | Python truthiness of the list: false exactly for no list and for the empty list. |
| Sources.SignificantSets | src/gwaslab/compare_effect.py:43-119 | Both sets hold only common variants and carry the files' P values. Set 1 is exactly the listed common variants whenever a list is given, and otherwise exactly the picker's choice among the common variants. Set 2 is the listed common variants only when the list is non-empty, and otherwise the picker's choice. With no list, both sets carry the files' CHR and POS. |
| Sources.EmptyListQuirk | src/gwaslab/compare_effect.py:79-119 | An empty list is given for source 1 (line 79 tests `is not None`) and its set is empty. For source 2 it is false (line 111), so source 2 falls back to the picker, whose table has no CHR or POS because lines 89-92 loaded only SNPID and P. |
| Merge.OuterMerge | src/gwaslab/compare_effect.py:124 | The outer join has one row per variant of either set. Each side holds that set's row, or all-missing cells when the variant is not in it. |
| Merge.EffectColumns | src/gwaslab/compare_effect.py:130-133 | The effect load reads the alleles and the first two effect columns, and the third (OR_H) only in odds-ratio mode. P, CHR and POS are not loaded. |
| Merge.LeftJoin | src/gwaslab/compare_effect.py:156-158 | The left join adds and drops no row and keeps P/CHR/POS. Alleles and effects come from the file, or are missing when the variant is absent. OR_H is loaded only in odds-ratio mode. Nothing else changes. |
| Merge.Backfilled | src/gwaslab/compare_effect.py:195-202 | `update` overwrites a side's P exactly where the full file has a P for that variant. Every other row and cell is unchanged. |
| Significance.Indicator | src/gwaslab/compare_effect.py:218-220 | The indicator lies in 0..3. Bit 1 is set iff P_1 < sig_level and bit 2 iff P_2 < sig_level. It is 0 iff neither P is below the level. |
| Significance.Classified | src/gwaslab/compare_effect.py:218-220 | Each row's indicator is computed from its two P values. No other column changes. |
| Significance.MaxPresent | src/gwaslab/compare_effect.py:222-223 | The row-wise max skips a missing cell. It is missing only when both cells are, it is one of its inputs, and it is at least each present input. |
| Significance.PositionsCastable | src/gwaslab/compare_effect.py:222-223 | The integer cast succeeds exactly when the row-wise max of CHR and of POS is present in every row. |
| Significance.MergedPositions | src/gwaslab/compare_effect.py:221-224 | When every row has some CHR and some POS, CHR/POS are set to the per-row max and are present. The per-source columns are dropped and nothing else changes. |
| Significance.WithIndicator | src/gwaslab/compare_effect.py:259-262 | A class holds exactly the rows with that indicator, unchanged. |
| Significance.Dropna | src/gwaslab/compare_effect.py:259-262 | `dropna` keeps exactly the rows complete in the loaded columns of this configuration, unchanged. |
| Significance.CompleteColumnSets | src/gwaslab/compare_effect.py:259-262 | The `dropna` column set (`Complete`) grows with the configuration. A row complete with CHR/POS loaded is complete without them, and a row complete in odds-ratio mode is complete in beta mode. |
| Significance.DegreesOfFreedom | src/gwaslab/compare_effect.py:362 | The degrees of freedom lie between -2 and the table size minus 2. They equal the size minus 2 exactly when no row has a missing cell. |
| Significance.IndicatorClassesPartition | src/gwaslab/compare_effect.py:259-262 | The four indicator classes are pairwise disjoint and cover the table. Their sizes sum to its size. |
| Significance.DroppedClassesCount | src/gwaslab/compare_effect.py:362 | Dropping rows commutes with taking a class. The four counted classes add up to the degrees of freedom plus 2. |
| Significance.TScore | src/gwaslab/compare_effect.py:361 | The t statistic times the standard error is the slope minus the null value. It is zero iff they are equal and positive iff the slope exceeds the null value. |
| Harmonize.SameAllele | src/gwaslab/compare_effect.py:232 | Two allele cells compare equal exactly when the first is present and they are the same value. A missing cell equals nothing. |
| Harmonize.Mismatch | src/gwaslab/compare_effect.py:232 | The swap mask `EA_1 != EA_2` holds exactly when either EA is missing or the two differ. |
| Harmonize.Negate | src/gwaslab/compare_effect.py:234 | The negated effect is present exactly when the effect is, and the two add to zero. |
| Harmonize.FlipBetaInvolution | src/gwaslab/compare_effect.py:232-234 | The beta swap undoes itself. |
| Harmonize.AlignBetaRow | src/gwaslab/compare_effect.py:227-234 | Only the aligned columns change. On an allele match they are source 2's. On a mismatch the alleles are exchanged and the effect negated. A variant whose source-2 alleles include source 1's EA gets that EA as aligned EA. |
| Harmonize.AlignedBeta | src/gwaslab/compare_effect.py:227-234 | Every row is aligned by `AlignBetaRow`, and the key set is unchanged. |
| Harmonize.MissingAlleleSwaps | src/gwaslab/compare_effect.py:232-234 | A row with a missing EA on either side is swapped: its aligned EA is NEA_2 and its effect is negated. |
| Harmonize.UnrelatedAllelesStillSwapped | src/gwaslab/compare_effect.py:232-234 | If EA_1 is neither allele of source 2, the row is still swapped, and its aligned EA still differs from EA_1. |
| Harmonize.AbsDiff | src/gwaslab/compare_effect.py:237-240 | A bound's distance from the OR is non-negative and equals the difference in one direction or the other. It is missing when either cell is. |
| Harmonize.Recip | src/gwaslab/compare_effect.py:250-252 | The reciprocal times the original is 1, and missing stays missing. |
| Harmonize.FlipOdds | src/gwaslab/compare_effect.py:248-252 | The odds swap exchanges the allele labels and replaces OR and both distances by values whose product with the original is 1. |
| Harmonize.FlipOddsInvolution | src/gwaslab/compare_effect.py:248-252 | The odds swap undoes itself. |
| Harmonize.BoundDistances | src/gwaslab/compare_effect.py:237-240 | Both sources' bounds become distances from their OR. Nothing else changes. |
| Harmonize.AlignOddsRow | src/gwaslab/compare_effect.py:236-252 | The bounds become distances and nothing else outside the aligned columns changes. On a match the aligned columns are source 2's OR and distances. On a mismatch the alleles are exchanged and the OR and both distances, which are non-zero, become their reciprocals (`Recip`: product 1). The biallelic case ends aligned to EA_1. |
| Harmonize.AlignedOdds | src/gwaslab/compare_effect.py:236-252 | Every row is aligned by `AlignOddsRow`, and the key set is unchanged. |
| Harmonize.SwappedOddsExample | src/gwaslab/compare_effect.py:237-252 | Worked case: OR 2.0 with bounds 1.5/2.7 on the other allele aligns to OR 0.5 with bounds 2.0 and 1/0.7. |
| MergedTables.MergedTable.constructor | src/gwaslab/compare_effect.py:192 | The table indexed by SNPID holds the joined rows. |
| MergedTables.MergedTable.UpdateP | src/gwaslab/compare_effect.py:194-212 | The in-place `update` leaves exactly the backfilled table. |
| MergedTables.MergedTable.Classify | src/gwaslab/compare_effect.py:217-220 | The three indicator writes leave the classified table, with every indicator in 0..3. |
| MergedTables.MergedTable.MergePositions | src/gwaslab/compare_effect.py:221-224 | It reports success exactly when the cast can succeed. On success the table has the merged positions; otherwise it is unchanged. |
| MergedTables.MergedTable.AlignBeta | src/gwaslab/compare_effect.py:227-234 | The six column writes leave the beta-aligned table. |
| MergedTables.MergedTable.AlignOdds | src/gwaslab/compare_effect.py:235-252 | The eleven column writes leave the odds-aligned table. |
| MergedTables.MergedTable.BoundsToDistances | src/gwaslab/compare_effect.py:237-240 | Each row's bounds become distances. |
| MergedTables.MergedTable.CopyOdds | src/gwaslab/compare_effect.py:242-246 | Source 2's five columns are copied into the aligned columns. |
| MergedTables.MergedTable.SwapLabels | src/gwaslab/compare_effect.py:248-249 | On mismatched rows the aligned EA and NEA become NEA_2 and EA_2. Other rows are unchanged. |
| MergedTables.MergedTable.InvertOdds | src/gwaslab/compare_effect.py:250-252 | On mismatched rows the aligned OR and distances become reciprocals of source 2's. Other rows are unchanged. |
| Reconciliation.Joined | src/gwaslab/compare_effect.py:121-190 | The joined table has one row per variant of either significant set, all of them common. |
| Reconciliation.JoinedRows | src/gwaslab/compare_effect.py:156-190 | Every joined row finds both files in the left joins. Its alleles and effects are the files'. Its P is missing or the file's. It is not yet classified or aligned. |
| Reconciliation.JoinedAt | src/gwaslab/compare_effect.py:124-190 | At one variant of both files, after the outer join and both left joins, the alleles and effects are the files', a P cell is missing or the file's, and the row is neither classified nor aligned. |
| Reconciliation.Scored | src/gwaslab/compare_effect.py:194-220 | The backfill and the indicator keep the joined key set. |
| Reconciliation.ScoredRows | src/gwaslab/compare_effect.py:194-220 | After the backfill, every row carries both files' P values. Its indicator is the one they give, its effects are the files', and it is not aligned yet. |
| Reconciliation.ScoredRow | src/gwaslab/compare_effect.py:194-220 | The same facts as `ScoredRows`, for one variant. |
| Reconciliation.ScoredAt | src/gwaslab/compare_effect.py:194-220 | At one variant of both files whose P cells are missing or the files', the backfill and indicator leave the files' P values and the indicator they give, and nothing else changes. |
| Reconciliation.BackfilledRow | src/gwaslab/compare_effect.py:202 | At one variant of the file whose P cell is missing or already the file's, `update` leaves the file's P, and nothing else changes. |
| Reconciliation.ScoredTable | src/gwaslab/compare_effect.py:192-220 | Indexing, the two in-place P updates and the indicator writes leave exactly the scored table in a fresh object. |
| Reconciliation.Reconcile | src/gwaslab/compare_effect.py:39-262 | The run fails with the mode error exactly when the mode is unknown. It fails at source 2's lead-variant pick exactly when the mode is valid and the list is empty. It fails at the integer cast exactly when the mode is valid, no list is given and some scored row lacks both CHR or both POS values. |
| Reconciliation.Summarize | src/gwaslab/compare_effect.py:259-262 | The result keeps the table. Each class holds exactly the rows with its indicator and no missing cell. The degrees of freedom plus 2 count the complete rows (line 362). |
| Reconciliation.UnselectedVariantNotInverted | src/gwaslab/compare_effect.py:237-252 | Worked case: a common variant outside both significant sets, with mismatched alleles and OR_L equal to OR, does not block a run. The run succeeds with an empty table. |
| Reconciliation.ReadyToInvert | src/gwaslab/compare_effect.py:250-252 | Given invertible cells on the variants of the significant sets, the odds swap can invert every cell it touches, before or after the position merge. |
| Reconciliation.ReconciledTable | src/gwaslab/compare_effect.py:39-262 | A successful run's table is keyed by the union of the significant sets, all common. Each row holds both files' P and the indicator they give. A row whose source-2 alleles contain EA_1 is aligned to EA_1. With no list, CHR and POS are present. |
| Reconciliation.SummaryPartition | src/gwaslab/compare_effect.py:259-262 | Each counted class is its indicator class of the complete rows. The classes partition the table. The four counts add up to the degrees of freedom plus 2. |
| Reconciliation.ReconciledClasses | src/gwaslab/compare_effect.py:259-262 | A successful run's indicators lie in 0..3, and its classes and degrees of freedom are those of its own merged table. |
| Reconciliation.CompareEffect | src/gwaslab/compare_effect.py:121-262 | The step-by-step run (joins, then in-place update, classification, position merge and alignment) returns exactly `Reconcile`'s result. |

## Left out

- Reading the two files and writing the merged table to disk (lines 45, 56, 94, 135, 167, 195, 205, 257). The two files are the inputs `s1`, `s2` (maps keyed by SNPID), and the written table is the `merged` field of the result.
- Column-name lists and renames (lines 62-69, 96-103, 137-153, 169-184): each source is already a map of named fields.
- Duplicate SNPIDs within one file are not represented, because a source is a map. The pandas joins would multiply such rows.
- `getsig` (lead-variant clumping, in another file) is not part of this model. It is the parameter `getsig`, which names the variants to keep; the model keeps those rows unchanged.
- The lead-variant pick over a table without CHR and POS columns is taken to fail. An empty list sends source 2 there (lines 89-92, 111, 118), and `Reconcile` returns `MissingPositionColumns`. The exact exception `getsig` raises is not modelled.
- The scatter plot, error bars, annotation, legend, helper lines and the returned figure (lines 264-358 and 363-399) are left out. The verbose messages are left out too.
- The regression (`scipy.stats.linregress`) and the t-distribution tail probability (`t.sf`) are left out, because they are floating-point library calls. Only the t statistic (`TScore`) and the degrees of freedom are modelled. The column-wise `mean` at lines 387-390 is unused.
- Reals are exact; IEEE rounding is not modelled.
- The CHR/POS integer cast fails on a NaN row; this is the result `Failure(NonFinitePosition)`. Casting a non-integral float is not modelled: CHR and POS are integers in the sources.
- Significance.TScore: requires a positive standard error. The source divides by whatever `linregress` returns, and a zero standard error gives an infinity, which the model does not represent.
- Reconciliation.Reconcile: in odds-ratio mode it requires `OddsReady`. On the variants of either significant set whose effect alleles disagree, OR_2 must be non-zero and OR_L_2 and OR_H_2 must differ from OR_2. Those are exactly the rows lines 250-252 invert, where the source would produce an infinity (1/0). Variants outside both sets are not constrained.
- Reconciliation.ReconciledTable: carries `Reconcile`'s `OddsReady` requirement in odds-ratio mode.
- Reconciliation.ReconciledClasses: carries `Reconcile`'s `OddsReady` requirement in odds-ratio mode.
- Reconciliation.ReadyToInvert: carries `Reconcile`'s `OddsReady` requirement.
- Reconciliation.CompareEffect: carries `Reconcile`'s `OddsReady` requirement in odds-ratio mode.
- Harmonize.Recip: requires a non-zero cell; 1/0 would be an infinity.
- Harmonize.FlipOdds: requires the OR and both distances to be non-zero (`NonZero`), because it takes their reciprocals.
- Harmonize.FlipOddsInvolution: requires `NonZero`, for the same reason as `FlipOdds`.
- Harmonize.AlignOddsRow: requires `OddsInvertible`: on a mismatched row, OR_2 is non-zero and both bounds differ from OR_2, so that the reciprocals are finite.
- Harmonize.AlignedOdds: requires `OddsInvertible` on every row, as `AlignOddsRow` does.
- MergedTables.MergedTable.AlignOdds: requires `OddsInvertible` on every row, as `AlignOddsRow` does.
- MergedTables.MergedTable.InvertOdds: requires non-zero OR_2 and bound distances on every mismatched row, because it takes their reciprocals.
- Three behaviours of the code are modelled as written:
  - The effect columns (lines 135, 167) and the P backfill (lines 195, 205) are read from the full files, not from the common-variant subsets.
  - A row with a missing EA on either side is swapped, so its aligned EA is NEA_2 rather than missing (`MissingAlleleSwaps`).
  - Source 2 consults the variant list only when it is non-empty (`EmptyListQuirk`).
- `read_ldsc.py` and the other gwaslab modules are not part of this model.
