# A verified model of StarCE

StarCE estimates the size of joins. It collects degree statistics of star joins (several tables joined on
one shared key), merges the statistics of stars that share a table, and is surrounded by scripts that
compute true cardinalities, match queries between workloads and reproduce experiments. This project models
the parts of it that carry an argument, and proves that argument for all inputs.

Tables are sequences of rows with nullable columns; a condition counts only if it is true, not unknown; a
query means `COUNT(*)` over all combinations of rows. On top of that:

* **True cardinalities.** The rewrite that groups every table by its join keys and sums products of counts returns the
  count of the original query, unless an alias is the table name of an alias (`GroupByPushdown`, `RewriteShape`,
  `CteNames`), and of the two scanners that cut a WHERE clause at its ANDs, one inverts joining, and both return the
  same parts exactly if they agree on every AND of the text (`Scanners`, `ScannerLevels`).
* **Star statistics.** The pivot and compression of the per-table counts are exact for every subset of an
  EqualSet (`StarCollection`); the worker threads compute the sequential fold under every interleaving
  (`CollectThreads`); the bucketed, corrected and cut degree sequences bound the degrees they stand for
  (`RankBounds`, `DegreeSequences`, `StarStatistics`, `CardLimit`, `StarBounds`, `StarSummary`, `StarEdges`),
  and exceed them by no more than the precision allows (`DegreePrecision`, `StarPrecision`). The adjustment rate
  lies between 0 and 1, since an average never exceeds the bound (`SumInequality`, `StarCalibration`).
* **Merging.** Merging two statistics on a shared table preserves the bound, for the cardinality and for the rows of
  every table, whatever other tables they share (`MergeSpread`, `MergeChunks`, `MergeRows`, `MergeEdges`,
  `MergeStatistics`, `MergeBounds`, `StarJoins`), and adds nothing before compression (`MergeExact`). The results of
  such a plan are what `COUNT(*)` counts (`PlanCounts`). The loop of `EstimateCardinality` (`StarAveraging`,
  `StarEstimation`) never returns less than the count of a query, for whatever database, iff its adjustment rate is 1
  (`StarGuarantee`, `StarRates`); at any rate it merges the classes of stars that share tables (`StarGroups`), and
  returns 0 iff a star has no results, and at least 1 otherwise (`StarFloor`); for a relation in no join it counts
  only the rows where the first collected column of the table is not NULL (`LoneTables`). A star that was split and
  put together again on its center keeps the bound iff it has at most twice as many tables as a part may have, or no
  results (`CenterMerge`, `StarSplit`).
* **Matching queries.** Union-find, canonical joins, query signatures and bridge tables, each with the exact
  condition under which a match means an equal count (`UnionFind`, `CanonicalJoins`, `Signatures`,
  `JoinAssignments`, `BridgeTables`); line matching and its replay (`LineMatching`); the three-pass matching (`LpBoundMatching`).
* **Tools.** The serialization generator as a compiler with an interpreter for what it generates
  (`Serialization`, `SerializationRoundTrip`, `SerializationTree`, `SerializationUnchecked`); include expansion and split packing
  (`IncludeExpansion`, `IncludeOrder`, `SplitPacking`); the checkpointed experiment runner (`Checkpoints`); maximal EqualSets
  (`EqualSets`).

`Sums`, `RealSums`, `Ordering`, `Options` and `Sql` hold what several modules need. `dafny verify dfyconfig.toml` checks the whole
project.

Degrees are compared by weak majorisation: a descending sequence *dominates* a family of degrees if any `n`
members of the family together are at most the first `n` ranks of the sequence. `RankBounds` shows that this is
the same as having at least the family's mass above every threshold, and that rank-wise products preserve it.

## Where the code does not do what is expected of it

* A conjunct that names no alias is dropped by the rewrite, although the comment at
  scripts/compute_join_true_cards.py:79 says it stays in the outer WHERE. The script then answers with the count of
  the query without these conjuncts, which is right on every database iff they are true or the rest cannot be
  satisfied (`AnswerIsKept`, `UncapturedIff`); `DroppedFalse` is a case with answer 1 and count 0.
* A WITH item hides the table of its name. If an alias is the table name of an alias, as in
  `FROM x AS a, a AS b WHERE a.k = b.k`, the engine refuses the query, or counts rows of the first CTE in place of rows
  of the table, which then have no influence (`HiddenTable`). Nothing false being dropped, such a query is always
  answered with its count iff it is accepted and no choice of rows satisfies it (`CapturedIff`); with one row in `x` and
  no table `a` the example is answered with 1 (`TakenName`).
* Only `=` reaches a signature. A query counts the same without its other joins, which no signature shows, iff
  each of them is `<=` or `>=` between columns that the equalities mention and connect (`InequalityIff`), and a
  column equated with nothing but itself leaves no trace (`SignatureIff`). Of any two queries with one signature it can
  be decided on finitely many assignments to their columns whether they count the same (`AssignmentIff`).
* A bridge table that two classes call for, or that is in the query with its key in another class, changes the
  count (`BridgesKeepCountIff`).
* With `CollectParallel <= 0` no statistic is collected, which is right iff no count vector has a row in all tables of
  a subset that is not skipped (`StatisticsCollectedIff`).
* A step that was skipped because a prerequisite was missing is never executed later (`SkippedNeverRuns`), and a
  recorded success becomes a skip as soon as a run gets to the step without its prerequisite, and only then
  (`DoneStaysIff`).
* The duplicate check never sees a class without a base class. All its objects come back iff every member can be
  read and no member that can be absent is followed by one with its id that can be present, with only members that
  can be absent between them (`UncheckedIff`).
* With bytes to split there is one part too many iff the last file is empty and every multiple of the split size
  ends some file; without bytes every file is a part, however many parts were asked for (`PartsCount`).
* Every include directive comes after the body it asks for iff no files outside the excluded ones include each other
  in a circle and can be expanded (`DirectivesSatisfiedIff`).
* Double quotes, a backslash before a quote and unmatched closing parentheses can make the scanners disagree
  (`ScannersDiffer`); they return the same parts iff they agree, at every AND, whether it stands at the top level
  (`ScannersAgreeIff`).
* A maximal EqualSet is needed, up to sets of its size that contain each other, iff it is contained in no other
  sets than these (`LeastCoverIff`). Entries that stand for a whole table can make one superfluous
  (`SuperfluousMaximal`).
* Whatever the adjustment rate below 1, there are a database and a query of two stars that averaging makes
  `EstimateCardinality` underestimate, at any precision (`BelowOneUnderestimates`, `RateIff`).
* A relation in no join is looked up under its table's name with an empty column, and the statistic found there counts
  the rows where the first collected column of the table is not NULL. Where stars share no table, the estimate is at
  least the count iff no such column has a NULL or one factor of the count is 0 (`SeparateIff`, `LoneBelowIff`);
  `NullUnderestimated` has two posts, one without an owner.
* A subset of an EqualSet with two tables without any key has no average, 0 by 0, and still counts for the adjustment
  rate, with a rate of 0 (`AverageMissingIff`).
* The relationship from `tags` to `posts` that the STATS schema declares is no bridge (`StatsBridgesIff`).
* `MergeByCenter` leaves the central sequence empty, so a star with more than `2 * MaxStarSize` tables is estimated at 0
  (`SplitExactIff`).

## Model

| member | source | states |
|---|---|---|
| `GroupByPushdown.ParseQuery` | scripts/compute_join_true_cards.py:62-81 | Sorts every conjunct into join, single-table or cross-table, keeping order; those without an alias go nowhere |
| `GroupByPushdown.GetJoinKeys` | scripts/compute_join_true_cards.py:163-169 | The join-key columns of every alias are exactly those of the join conditions |
| `GroupByPushdown.BuildCtes` | scripts/compute_join_true_cards.py:182-215 | One CTE per alias: its table, its join keys and its own predicates |
| `GroupByPushdown.BuildGroupedQuery` | scripts/compute_join_true_cards.py:172-250 | The generated query: sorted CTEs, and joins and cross-table predicates outside |
| `RewriteShape.ClassifyIff` | scripts/compute_join_true_cards.py:62-81 | A conjunct is a join iff it equates columns of known aliases; any other is sorted by the number of aliases that it names |
| `RewriteShape.GeneratedIs` | scripts/compute_join_true_cards.py:172-250 | The generated query in terms of the original conjuncts: one CTE for every alias in the order of their names, grouped by exactly the columns that joins mention and filtered by exactly what names its alias only; outside are the joins and what names several aliases |
| `GroupByPushdown.KeptExact` | scripts/compute_join_true_cards.py:172-250 | If nothing false was dropped and no alias is the table name of an alias, the sum of products is the count of the original query |
| `GroupByPushdown.PushdownExact` | scripts/compute_join_true_cards.py:62-81 | On every database, with NULL keys, empty tables and aliases without keys, and no alias being the table name of an alias, the original count is the rewrite's answer if the dropped conjuncts are true, and 0 otherwise |
| `GroupByPushdown.AnswerIsKept` | scripts/compute_join_true_cards.py:62-81 | No table name being taken by an alias, the script answers with the count of the query without the conjuncts that name no alias |
| `GroupByPushdown.PushdownExactIff` | scripts/compute_join_true_cards.py:253-258 | No table name being taken by an alias, on a database the answer is the true count iff the dropped conjuncts are true or the rest of the query counts 0 there |
| `GroupByPushdown.DroppedFalse` | scripts/compute_join_true_cards.py:76-81 | One row and a false conjunct without an alias: answer 1, true count 0 |
| `CteNames.ResultsExist` | scripts/compute_join_true_cards.py:199-215 | Unless a materialised CTE reads itself or a later one, the generated query has a result on every database, CTEs reading CTEs included |
| `CteNames.HiddenTable` | duckdb/src/planner/binder/tableref/bind_basetableref.cpp:100-137 | The rows of a table whose name is an alias have no influence on any result |
| `CteNames.NothingAnswered` | scripts/compute_join_true_cards.py:226-250 | If no choice of rows satisfies the conjuncts that are kept, every answer is 0, whatever the CTEs read |
| `CteNames.UncapturedIff` | scripts/compute_join_true_cards.py:253-276 | No table name being taken, the script always writes the true count iff the dropped conjuncts are true or no choice of rows satisfies the rest |
| `CteNames.CapturedIff` | scripts/compute_join_true_cards.py:253-276 | With a table name taken and nothing false dropped, it always does iff the engine accepts the query and no choice of rows satisfies it |
| `CteNames.AlwaysExactIff` | scripts/compute_join_true_cards.py:253-276 | A query with at most one of the two faults is always answered with its count iff the engine accepts it and it has neither fault or its kept conjuncts cannot be satisfied |
| `CteNames.TakenName` | scripts/compute_join_true_cards.py:204-213 | `FROM x AS a, a AS b WHERE a.k = b.k` with one row in `x` and no table `a`: the script writes 1, the true count is 0 |
| `Scanners.SplitAnd` | scripts/compute_join_true_cards.py:93-133 | The scanner with its index, depth, quote and part computes the split function |
| `Scanners.SplitTopLevel` | scripts/extract_subquery_real_cards.py:25-70 | The second scanner, with "and", computes its split function |
| `Scanners.ScannersAgree` | scripts/extract_subquery_real_cards.py:25-70 | Without double quotes and backslashes, and with parentheses that never go negative, both scanners return the same non-empty parts |
| `Scanners.ScannersDiffer` | scripts/extract_subquery_real_cards.py:43-54 | A double-quoted AND, a backslash before a quote and an unmatched parenthesis each make the scanners return different parts |
| `ScannerLevels.ScannersAgreeIff` | scripts/extract_subquery_real_cards.py:25-70 | On any text both scanners return the same non-empty parts iff at every AND of the text they agree whether it stands outside quotes and parentheses |
| `Scanners.SplitUndoesJoin` | scripts/compute_join_true_cards.py:93-133 | Splitting the AND-join of any list of trimmed, closed conjuncts without a top-level AND returns the list |
| `Scanners.AndAtIff` | scripts/compute_join_true_cards.py:122-127 | A cut is where one of the eight spellings of the word stands between two spaces |
| `Scanners.StripIs` | scripts/compute_join_true_cards.py:123-131 | Stripping takes away the white space at both ends, all of it and nothing else |
| `StarCollection.FetchCountNum` | main.cpp:142-163 | The map read from the result set holds every count vector with its frequency |
| `StarCollection.UnionTotal` | main.cpp:105-119 | A pivot entry is the number of rows of that table with that value |
| `StarCollection.PivotComplete` | main.cpp:121-124 | No value of any column is missing from the pivot |
| `StarCollection.StarByValue` | main.cpp:121-124 | A star join counted value by value is the sum of products of degrees |
| `StarCollection.StarExact` | main.cpp:101-163 | For every subset of the tables, frequencies times products of counts add up to the size of the star join |
| `StarCollection.SingleStar` | main.cpp:105-110 | The star of one table is its rows with a non-null key |
| `CollectThreads.NoSharing` | main.cpp:184-198 | In no reachable state are two workers at the same subset |
| `CollectThreads.OwnerWrites` | main.cpp:184-198 | A statistic changes only by a write of the thread that owns it, and never if it is skipped |
| `CollectThreads.EveryInterleaving` | main.cpp:176-207 | After the join every statistic that is not skipped is the sequential fold over all counts, skipped ones are untouched, and so are the single-table sequences folded |
| `CollectThreads.CollectedIff` | main.cpp:176-180 | Everything is collected iff `CollectParallel >= 1` or no count is to be added to a subset that is not skipped |
| `CollectThreads.StatisticsCollectedIff` | duckdb/src/include/duckdb/starce/statistic.hpp:255-274 | With the additions of `AddDegree`: iff `CollectParallel >= 1` or no count vector has a row in all tables of a subset that is not skipped |
| `CollectThreads.FoldCollects` | main.cpp:185-198 | What a worker folds over the count vectors is what `AddDegree` collects: cardinality, central sequence and every table's sequence |
| `CollectThreads.WorkersNumber` | main.cpp:176-186 | As many workers are started as the setting, the subsets and the machine allow, and one where the machine tells nothing |
| `CollectThreads.RunBounded` | main.cpp:184-207 | No schedule is longer than the work there is |
| `CollectThreads.NeverStuck` | main.cpp:200-207 | Until the main thread has joined, some thread can move |
| `RankBounds.ProductDominates` | duckdb/src/include/duckdb/starce/statistic.hpp:98-127 | Rank-wise products of dominating sequences dominate products of families |
| `DegreeSequences.BucketMono` | duckdb/src/include/duckdb/starce/statistic.hpp:52-64 | A larger degree never goes to a lower bucket |
| `DegreeSequences.CompressUp` | duckdb/src/include/duckdb/starce/statistic.hpp:52-96 | Bucketing and count correction lose no mass above any threshold |
| `DegreeSequences.CompressDominates` | duckdb/src/include/duckdb/starce/statistic.hpp:52-96 | A compressed list descends and dominates whatever the list bounds, at any precision |
| `DegreeSequences.CompressPermuted` | duckdb/src/include/duckdb/starce/statistic.hpp:52-96 | The same degrees give the same sequence in whatever order they are added |
| `DegreeSequences.ExpandSegments` | duckdb/src/include/duckdb/starce/statistic.hpp:98-127 | The walk over two sequences meets exactly the rank-wise product |
| `DegreeSequences.DotDominates` | duckdb/src/include/duckdb/starce/statistic.hpp:98-127 | What `dot` returns dominates the products of the degrees its arguments dominate |
| `DegreePrecision.BucketIff` | duckdb/src/include/duckdb/starce/statistic.hpp:52-64 | A degree above 1 goes to bucket `b` iff it is at most the `b`-th power of the precision and above the power before |
| `DegreePrecision.SlotHolds` | duckdb/src/include/duckdb/starce/statistic.hpp:52-72 | A bucket has the number, the mass and the largest of the degrees that belong there |
| `DegreePrecision.CompressKeys` | duckdb/src/include/duckdb/starce/statistic.hpp:52-96 | For a precision `p` above 1 a compressed list has no more keys above `p * t` than the list had above `t` |
| `DegreePrecision.CompressMass` | duckdb/src/include/duckdb/starce/statistic.hpp:74-96 | Its mass exceeds that of the list by less than one degree of every stored bin |
| `DegreePrecision.DotKeys` | duckdb/src/include/duckdb/starce/statistic.hpp:98-127 | `dot` has no more keys above `p * t` than the products of the degrees have above `t` |
| `StarStatistics.DegreeSequence.AddDegree` | duckdb/src/include/duckdb/starce/statistic.hpp:52-72 | The bucket of the degree takes the keys, the others stay; which bucket that is, `BucketIff` says |
| `StarStatistics.DegreeSequence.EraseEmpty` | duckdb/src/include/duckdb/starce/statistic.hpp:79-87 | The erasing loop keeps exactly the occupied buckets, in order |
| `StarStatistics.DegreeSequence.CorrectCounts` | duckdb/src/include/duckdb/starce/statistic.hpp:88-94 | Every count is tightened to what its mass needs |
| `StarStatistics.DegreeSequence.FinishCollection` | duckdb/src/include/duckdb/starce/statistic.hpp:74-96 | The finished sequence is the specification's |
| `StarStatistics.DegreeSequence.GetCard` | duckdb/src/include/duckdb/starce/statistic.hpp:152-158 | The sum of count times degree |
| `StarStatistics.DegreeSequence.Dot` | duckdb/src/include/duckdb/starce/statistic.hpp:98-127 | The two-pointer walk computes the compressed rank-wise product |
| `StarBounds.SingleDominates` | duckdb/src/include/duckdb/starce/starce.hpp:304-315 | The single-table sequence dominates the table's degrees over all key values |
| `StarBounds.UpperDominates` | duckdb/src/include/duckdb/starce/starce.hpp:331-351 | The chain of dots dominates the star's degrees over all key values |
| `StarBounds.RealBelowUpper` | duckdb/src/include/duckdb/starce/starce.hpp:331-355 | The true size of a star join never exceeds the upper cardinality |
| `StarPrecision.UpperTight` | duckdb/src/include/duckdb/starce/starce.hpp:331-351 | From above: over `n` tables the chain is, at every rank, at most `p` to the power `2n - 1` times the product of the tables' degrees at this rank, each table taken once |
| `StarPrecision.SomeTableRanks` | duckdb/src/include/duckdb/starce/starce.hpp:304-315 | Every star has such families of ranked degrees |
| `SumInequality.Chebyshev` | duckdb/src/include/duckdb/starce/starce.hpp:347-349 | The sums of two descending sequences multiply to at most the number of ranks times the sum of their rank-wise products |
| `StarCalibration.MeasureSubset` | duckdb/src/include/duckdb/starce/starce.hpp:331-353 | The loop over the tables of a subset computes the upper bound and the average estimate |
| `StarCalibration.AverageBelowUpper` | duckdb/src/include/duckdb/starce/starce.hpp:342-356 | The average estimate never exceeds the upper bound, so nothing is left out but where they are equal |
| `StarCalibration.AverageEven` | duckdb/src/include/duckdb/starce/starce.hpp:347-349 | Where all keys of both sides have one degree, the average is exactly what the rank-wise products add up to |
| `StarCalibration.AverageMissingIff` | duckdb/src/include/duckdb/starce/starce.hpp:348-360 | The average is not a number iff two tables of the subset have no key at all; a rate of 0 is added then |
| `StarCalibration.PositionMeets` | duckdb/src/include/duckdb/starce/starce.hpp:357-357 | The position leads from the average to the true cardinality, or nowhere if that is below the average; it is 1 exactly at the upper bound and 0 exactly up to the average |
| `StarCalibration.RateAtMostOne` | duckdb/src/include/duckdb/starce/starce.hpp:356-360 | The root of the position between average and upper bound lies between 0 and 1 |
| `StarCalibration.Calibration.AddSubset` | duckdb/src/include/duckdb/starce/starce.hpp:331-362 | A rate is added unless the average reaches the upper bound; it is at most 1, and 0 where there is no average |
| `StarCalibration.Calibration.CalcAdjustRate` | duckdb/src/include/duckdb/starce/starce.hpp:250-256 | The adjustment rate stays between 0 and 1 |
| `StarSummary.MultiplyCounts` | duckdb/src/include/duckdb/starce/statistic.hpp:257-266 | The product of the counts, 0 exactly if a table has no row |
| `StarSummary.DSStatistic.AddDegree` | duckdb/src/include/duckdb/starce/statistic.hpp:255-274 | Every table's sequence, the central one and the cardinality take one count vector |
| `StarSummary.DSStatistic.AddAllDegrees` | main.cpp:192-194 | A worker's loop leaves the statistic that all vectors together define |
| `StarSummary.DSStatistic.FinishCollection` | duckdb/src/include/duckdb/starce/statistic.hpp:276-292 | Every sequence is closed and cut at the cardinality |
| `CardLimit.LimitDsToCard` | duckdb/src/include/duckdb/starce/statistic.hpp:294-325 | The loop cuts a sequence where its mass reaches the cardinality |
| `CardLimit.LimitPrefix` | duckdb/src/include/duckdb/starce/statistic.hpp:294-325 | The cut keeps every prefix up to the cardinality, losing at most 1e-6, and nothing for whole degrees |
| `CardLimit.LimitAtMost` | duckdb/src/include/duckdb/starce/statistic.hpp:294-325 | No prefix of the cut has more than the sequence had, nor more than the cardinality |
| `CardLimit.LimitDominates` | duckdb/src/include/duckdb/starce/statistic.hpp:294-325 | A family of total mass at most the cardinality stays dominated |
| `StarEdges.EdgeMass` | duckdb/src/include/duckdb/starce/statistic.hpp:267-271 | The collected degrees and the rows of a table hold the same mass above every threshold |
| `StarEdges.CardExact` | duckdb/src/include/duckdb/starce/statistic.hpp:273-273 | The collected cardinality is the size of the star join |
| `StarEdges.RowDegreesSum` | duckdb/src/include/duckdb/starce/statistic.hpp:267-273 | The row degrees of any table of the star add up to the star join |
| `StarEdges.EdgeDominates` | duckdb/src/include/duckdb/starce/statistic.hpp:255-325 | The stored sequence of a table dominates the degrees of its rows in the star join |
| `StarEdges.FinishedDominates` | duckdb/src/include/duckdb/starce/statistic.hpp:276-325 | So does what closing the buckets in hand gives, which is the same sequence |
| `StarPrecision.EdgeKeys` | duckdb/src/include/duckdb/starce/statistic.hpp:255-325 | From above: over `p * t` the stored sequence has no more rows than the table has rows that occur more than `t` times in the star |
| `StarPrecision.StarKeys` | duckdb/src/include/duckdb/starce/statistic.hpp:255-325 | The same for the collected statistic of a star |
| `MergeSpread.SpreadPrefix` | duckdb/src/include/duckdb/starce/statistic.hpp:344-434 | The first rows together get exactly the weight of the first tuples |
| `MergeSpread.FeedRefines` | duckdb/src/include/duckdb/starce/statistic.hpp:344-434 | Feeding one chunk emits what the spread assigns and goes on from there |
| `MergeSpread.EdgeItemsPrefix` | duckdb/src/include/duckdb/starce/statistic.hpp:327-434 | The walk over one table's sequence, with the row left at the end, computes the spread |
| `MergeEdges.MergeEdge` | duckdb/src/include/duckdb/starce/statistic.hpp:344-434 | One table's turn with its position, row under way and rest of a bin does what the specification says |
| `MergeEdges.MergeTable` | duckdb/src/include/duckdb/starce/statistic.hpp:327-342 | All chunks and the row left under way |
| `MergeStatistics.FeedSide` | duckdb/src/include/duckdb/starce/statistic.hpp:354-432 | Every table of one side gets the chunk and stays on the way to its specified degrees |
| `MergeStatistics.Walk` | duckdb/src/include/duckdb/starce/statistic.hpp:456-483 | The walk over the shared table, with a position and the rest of a bin on both sides, computes the cardinality and the shared degrees and feeds every other table all its chunks |
| `MergeStatistics.Merge` | duckdb/src/include/duckdb/starce/statistic.hpp:436-495 | The method computes the merged statistic that `MergeBounded` is about; a further common table gets the degrees of both sides |
| `MergeChunks.ThresholdProduct` | duckdb/src/include/duckdb/starce/statistic.hpp:456-483 | Degrees of the one side times weights of the other above a threshold are at most what the chunks hold |
| `MergeExact.ChunksExact` | duckdb/src/include/duckdb/starce/statistic.hpp:456-483 | For any degrees: the tuples of the first `n` ranks of one side weigh exactly what the rank-wise products of both sides add up to |
| `MergeExact.MergedExact` | duckdb/src/include/duckdb/starce/statistic.hpp:436-489 | The merged cardinality is the sum of the rank-wise products, which the shared table gets; every other table gets exactly what the tuples of its own side are worth, and a table of both sides gets both |
| `MergeRows.ChunksDominate` | duckdb/src/include/duckdb/starce/statistic.hpp:456-483 | The chunks dominate the weights that one side gives to the tuples of the other |
| `MergeRows.SpreadDominates` | duckdb/src/include/duckdb/starce/statistic.hpp:344-434 | The spread of the chunks over a table's sequence dominates the new degrees of its rows |
| `MergeBounds.JoinShared` | duckdb/src/include/duckdb/starce/statistic.hpp:474-478 | A row of a shared table occurs at most as often as the product of its degrees |
| `MergeBounds.MergedCardBounds` | duckdb/src/include/duckdb/starce/statistic.hpp:477-488 | The merged cardinality is at least the number of results of the join |
| `MergeBounds.MergeBounded` | duckdb/src/include/duckdb/starce/statistic.hpp:436-495 | Merging on a shared table preserves the bound of cardinality and of every table's rows, whatever other tables are shared |
| `StarPrecision.MergedKeys` | duckdb/src/include/duckdb/starce/statistic.hpp:436-495 | A merge stores no more rows above `p * t` than it found degrees above `t` |
| `StarJoins.StarBounded` | duckdb/src/include/duckdb/starce/statistic.hpp:255-325 | A star's statistic bounds the results of the star, of which there are as many as the star join's size |
| `StarJoins.PlanBounded` | duckdb/src/include/duckdb/starce/statistic.hpp:436-495 | Every tree of merges over stars bounds its join |
| `StarJoins.NeverUnderestimates` | duckdb/src/include/duckdb/starce/statistic.hpp:436-495 | The cardinality that merging arrives at is at least the number of results of the join tree |
| `PlanCounts.ResultsList` | duckdb/src/include/duckdb/starce/starce.hpp:850-872 | The results of a join tree are, once each, the choices of rows on which all its stars agree |
| `PlanCounts.PlanCount` | duckdb/src/include/duckdb/starce/starce.hpp:850-872 | They are as many as `COUNT(*)` over the tree's tables, in any order, with the conditions of all its stars |
| `PlanCounts.NeverBelowCount` | duckdb/src/include/duckdb/starce/statistic.hpp:436-495 | What merging arrives at is never below that count |
| `StarAveraging.AdjustToAverage` | duckdb/src/include/duckdb/starce/statistic.hpp:521-538 | The loop with its count of rows without degree mixes every degree with the average and cuts at the cardinality |
| `StarAveraging.AdjustedMass` | duckdb/src/include/duckdb/starce/statistic.hpp:521-538 | The new mass is the mean, with weight `k`, of the old mass and the cardinality, and the cut takes nothing away |
| `StarAveraging.AdjustedRow` | duckdb/src/include/duckdb/starce/statistic.hpp:521-538 | Row by row: if the sequence speaks of no more rows than the table has, each row gets `k` times its own degree plus `1 - k` times the average, and there are no other rows |
| `StarAveraging.AdjustedPrefix` | duckdb/src/include/duckdb/starce/statistic.hpp:521-538 | However many rows it speaks of: at every rank these means add up, as far as the cardinality goes, within 1e-6 |
| `StarAveraging.AdjustedAtOne` | duckdb/src/include/duckdb/starce/statistic.hpp:521-538 | With `k` = 1 no sequence changes |
| `StarAveraging.NormalizedUp` | duckdb/src/include/duckdb/starce/statistic.hpp:540-558 | Normalizing loses no mass, leaves degrees of at least 1, and keeps whole degrees |
| `StarAveraging.NormalClose` | duckdb/src/include/duckdb/starce/statistic.hpp:540-558 | A bin below 1 becomes as many keys of degree 1 as hold its mass and less than one more; every other bin stays |
| `StarAveraging.NormalizedClose` | duckdb/src/include/duckdb/starce/statistic.hpp:540-558 | Normalizing adds less than 1 for every bin |
| `StarEstimation.LimitCard` | duckdb/src/include/duckdb/starce/statistic.hpp:294-325 | A sequence that was cut holds no more mass than the cardinality |
| `StarEstimation.FindRoot` | duckdb/src/include/duckdb/starce/starce.hpp:855-860 | Following the parents ends at the representative |
| `StarEstimation.MergePair` | duckdb/src/include/duckdb/starce/starce.hpp:852-872 | The body of the loops merges the statistics of two roots and relinks them as the step function says, at any rate |
| `StarEstimation.FirstCommonLeast` | duckdb/src/include/duckdb/starce/starce.hpp:480-490 | Two statistics are merged on the first of their common relations |
| `StarFloor.PreparedFloor` | duckdb/src/include/duckdb/starce/starce.hpp:865-868 | At any rate only degrees of at least 1 enter a merge; together they have at least the mean mass, and less than 1 more for every bin |
| `StarFloor.PairCard` | duckdb/src/include/duckdb/starce/starce.hpp:863-869 | Where averaging leaves no row of the shared table below 1, the merged cardinality is the sum over its ranks of the products of the two means |
| `StarPrecision.PairKeys` | duckdb/src/include/duckdb/starce/starce.hpp:863-869 | A merge in the loop stores no more rows above `p * t` than it found degrees above `t` |
| `StarGroups.SharingMerged` | duckdb/src/include/duckdb/starce/starce.hpp:850-872 | At any rate two statistics with a common table end up in one group |
| `StarGroups.GroupsLeast` | duckdb/src/include/duckdb/starce/starce.hpp:850-872 | No two others do: every equivalence that relates statistics with common tables relates all of a group |
| `StarGroups.RootTables` | duckdb/src/include/duckdb/starce/starce.hpp:862-869 | The root of a group has exactly the tables of its statistics |
| `StarEstimation.MergeAll` | duckdb/src/include/duckdb/starce/starce.hpp:850-874 | The loops over all pairs leave the statistics and the parents that all steps together define |
| `StarEstimation.EstimateCardinality` | duckdb/src/include/duckdb/starce/starce.hpp:850-885 | At any rate the method returns the product over the roots that the theorems about estimates speak of |
| `StarFloor.EstimateFloor` | duckdb/src/include/duckdb/starce/starce.hpp:850-880 | At any rate the estimate is 0 if some statistic has no results and at least 1 if all have |
| `StarFloor.EstimateZeroIff` | duckdb/src/include/duckdb/starce/starce.hpp:850-880 | From collected statistics, at any rate and precision, the estimate is 0 iff a star of the query has no results, and then the query has none; otherwise it is at least 1 |
| `StarGuarantee.EstimateBounded` | duckdb/src/include/duckdb/starce/starce.hpp:715-720 | What collection and merging compute for a star or a tree of stars bounds it, within its cardinality |
| `StarGuarantee.StepBounded` | duckdb/src/include/duckdb/starce/starce.hpp:861-869 | At rate 1 every step of the loops keeps that each root bounds the combinations of its group of stars |
| `StarGuarantee.MergedBounded` | duckdb/src/include/duckdb/starce/starce.hpp:850-874 | After the loops every root bounds its group, and stars that share a table are in one group |
| `StarGuarantee.EstimateAboveCount` | duckdb/src/include/duckdb/starce/starce.hpp:850-885 | At rate 1, whatever tables the stars share, the estimate is at least `COUNT(*)` with the conditions of all stars |
| `StarRates.ForkStored` | main.cpp:101-163 | On the database of the counterexample collection stores one row of degree `m` for the shared table, at any precision and in any order of the groups |
| `StarRates.BelowOneUnderestimates` | duckdb/src/include/duckdb/starce/starce.hpp:865-869 | For every rate below 1 and every precision there are a database, collected statistics and a query that is underestimated |
| `StarRates.RateIff` | duckdb/src/include/duckdb/starce/starce.hpp:682-885 | No query on any database is underestimated iff the adjustment rate is 1 |
| `LoneTables.PrepareAll` | duckdb/src/include/duckdb/starce/starce.hpp:258-278 | The statistic of a table by itself is that of its first column in the first EqualSet that has one; later ones are skipped |
| `LoneTables.FirstColumnIs` | duckdb/src/include/duckdb/starce/starce.hpp:258-279 | The column that stands for a table is its first one in the first EqualSet that has it |
| `LoneTables.LoneStatistic` | duckdb/src/include/duckdb/starce/starce.hpp:442-459 | For a relation in no join the cardinality is the number of rows where that column is not NULL |
| `LoneTables.CollectedIff` | main.cpp:105-110 | The statistics speak of as many combinations as the query counts iff no lone table has a NULL in its column or there is nothing to count |
| `LoneTables.EstimateAboveQuery` | duckdb/src/include/duckdb/starce/starce.hpp:850-885 | At rate 1 the estimate is at least the count of the query if no lone table has a NULL in its column or the count is 0 |
| `LoneTables.SeparateExact` | duckdb/src/include/duckdb/starce/starce.hpp:875-885 | Where stars share no table the estimate is exactly what the statistics speak of, at any rate |
| `LoneTables.SeparateIff` | duckdb/src/include/duckdb/starce/starce.hpp:442-459 | There the estimate is at least the count iff no lone table has a NULL in its column, or some lone table is empty or some star has no result |
| `LoneTables.LoneBelowIff` | duckdb/src/include/duckdb/starce/equalset.hpp:108-112 | A table by itself has more rows than estimated iff its first collected column has a NULL |
| `LoneTables.NullUnderestimated` | duckdb/src/include/duckdb/starce/equalset.hpp:108-112 | Two posts, one without an owner, with the owner collected first, are estimated to be fewer |
| `CenterMerge.MergeByCenter` | duckdb/src/include/duckdb/starce/statistic.hpp:497-519 | Computes the merge on the virtual center table, with an empty central sequence in the result |
| `CenterMerge.CentralDominates` | duckdb/src/include/duckdb/starce/statistic.hpp:272-291 | The stored central sequence dominates the degrees of the keys |
| `CenterMerge.FinishedCentral` | duckdb/src/include/duckdb/starce/statistic.hpp:276-292 | So does what closing the central buckets in hand gives |
| `CenterMerge.CentralKeys` | duckdb/src/include/duckdb/starce/statistic.hpp:272-284 | From above: it has no more keys over `p * t` than the star has keys of a degree over `t` |
| `CenterMerge.CenterExact` | duckdb/src/include/duckdb/starce/statistic.hpp:497-507 | Merging on the center estimates the sum over the ranks of the products of the two central degrees |
| `CenterMerge.CenterKeys` | duckdb/src/include/duckdb/starce/statistic.hpp:497-519 | Merging on the center stores no more rows above `p * t` than it found degrees above `t` |
| `CenterMerge.DropMember` | duckdb/src/include/duckdb/starce/statistic.hpp:497-519 | Joining the parts on the key gives, without the key, the results of the whole star |
| `CenterMerge.TwoPartsBounded` | duckdb/src/include/duckdb/starce/statistic.hpp:497-519 | Two parts merged on the center bound the whole star, in cardinality and for the rows of all tables |
| `CenterMerge.MergeParts` | duckdb/src/include/duckdb/starce/starce.hpp:667-678 | The loop over the parts of a split star computes the specified statistic |
| `CenterMerge.PartsCard` | duckdb/src/include/duckdb/starce/starce.hpp:667-678 | One or two parts do not underestimate the star; three or more are estimated at 0 |
| `StarSplit.Split` | duckdb/src/include/duckdb/starce/equalset.hpp:140-170 | The loop with its count of remaining entries, and its error for sizes below 3 |
| `StarSplit.SplitParts` | duckdb/src/include/duckdb/starce/equalset.hpp:140-170 | No entry is lost or reordered, every part has at most the maximal size, and none has one entry only |
| `StarSplit.SplitSizes` | duckdb/src/include/duckdb/starce/equalset.hpp:140-170 | All parts but the last are full; where one entry would be left over, the last part takes one from the part before it |
| `StarSplit.PartsNumber` | duckdb/src/include/duckdb/starce/equalset.hpp:140-170 | There are at most two parts iff two parts can hold all entries |
| `StarSplit.SplitExactIff` | duckdb/src/include/duckdb/starce/starce.hpp:652-680 | A star that is split is not underestimated iff it has at most `2 * MaxStarSize` tables or no result |
| `UnionFind.ConnectedLeast` | scripts/extract_subquery_real_cards.py:202-206 | Connectedness is contained in every equivalence that contains the edges |
| `UnionFind.ConnectedEquivalence` | scripts/extract_subquery_real_cards.py:202-206 | It is an equivalence that contains them |
| `UnionFind.LinkSound` | scripts/extract_subquery_real_cards.py:119-123 | Linking two roots keeps the parent map acyclic and unites exactly two classes |
| `UnionFind.Forest.Find` | scripts/extract_subquery_real_cards.py:110-117 | Terminates on the acyclic map, and path compression changes no representative |
| `UnionFind.Forest.Union` | scripts/extract_subquery_real_cards.py:119-123 | Representatives are equal iff connected by the edges united so far, the new one included |
| `UnionFind.Forest.UnionInto` | scripts/remap/map_benchmark_estimates.py:76-77 | The same for the variant without a test for equal roots |
| `UnionFind.Forest.SameClass` | scripts/extract_subquery_real_cards.py:110-123 | `find(x) == find(y)` iff x and y are connected |
| `CanonicalJoins.CanonicalPredicates` | scripts/extract_subquery_real_cards.py:202-220 | Computes the star of equalities of every class with two or more columns, and nothing else |
| `CanonicalJoins.SignatureJoins` | scripts/remap/map_benchmark_estimates.py:71-99 | Computes the same set through the names of the parent map |
| `CanonicalJoins.CanonicalIff` | scripts/extract_subquery_real_cards.py:202-224 | Two lists of equalities have the same canonical form iff they generate the same classes |
| `CanonicalJoins.CanonicalIdempotent` | scripts/remap/map_benchmark_estimates.py:170-202 | Canonicalising the canonical form changes nothing |
| `CanonicalJoins.AnyOrder` | scripts/remap/map_benchmark_estimates.py:79-99 | Order, orientation and repetition of the equalities do not matter |
| `Signatures.Canonicalize` | scripts/remap/map_benchmark_estimates.py:54-108 | The signature: set of tables, canonical equalities, filters |
| `Signatures.EqualitiesMean` | scripts/remap/map_benchmark_estimates.py:79-82 | A list of equalities says that each class agrees and that its isolated columns are not NULL |
| `Signatures.SignatureSound` | scripts/remap/map_benchmark_estimates.py:225-246 | Equal signatures mean equal counts on every database, given the same non-equality joins and isolated self-equalities |
| `Signatures.SignatureIff` | scripts/remap/map_benchmark_estimates.py:90-92 | Two equality queries with one signature count the same on every database iff the same columns are equated with nothing but themselves |
| `Signatures.InequalityIff` | scripts/remap/map_benchmark_estimates.py:79-82 | A query and the query without its non-equality joins have one signature; they count the same on every database iff each such join is `<=` or `>=` between columns that the equalities mention and connect |
| `Signatures.InequalityVanishes` | scripts/remap/map_benchmark_estimates.py:79-80 | So a query and the query without its `<` join have one signature and different counts |
| `Signatures.ComparisonsAgree` | scripts/remap/map_benchmark_estimates.py:38-40 | The comparisons that reach no signature: one of `<`, `>` and equal holds, and the others are their converses and negations |
| `JoinAssignments.AssignmentIff` | scripts/remap/map_benchmark_estimates.py:225-246 | Two queries with the same tables and filters, whatever their joins, count the same on every database iff no assignment of NULLs and of numbers below the number of columns tells their joins apart |
| `BridgeTables.StatsSchemaOk` | scripts/remap/map_benchmark_estimates.py:114-131 | The STATS columns and keys meet what the bridge theorems ask of a schema |
| `BridgeTables.JobLightSchemaOk` | scripts/remap/map_benchmark_estimates.py:124-131 | So do those of JOB-light |
| `BridgeTables.StatsBridgesIff` | methods/FactorJoin/Schemas/stats/schema.py:73-91 | The bridges of STATS are the relationships that its schema declares, with their keys, all but the one of `tags` |
| `BridgeTables.JobLightBridgesIff` | methods/FactorJoin/Schemas/imdb/schema.py:59-63 | Those of JOB-light are exactly the declared ones |
| `BridgeTables.InferBridges` | scripts/remap/map_benchmark_estimates.py:149-163 | The loops find exactly the tables that a class calls for and join all its columns with their keys |
| `BridgeTables.AddBridgesAndMatch` | scripts/remap/map_benchmark_estimates.py:134-207 | An estimate is returned iff a bridge is called for and the bridged signature is known, and it is that signature's |
| `BridgeTables.BridgesKeepCount` | scripts/remap/map_benchmark_estimates.py:149-202 | Safe bridges keep the count on every database with unique keys and intact references, whatever the filters |
| `BridgeTables.AtMostOneExtension` | scripts/remap/map_benchmark_estimates.py:149-163 | With unique keys alone, a result extends to the bridge tables in at most one way |
| `BridgeTables.BridgesKeepCountIff` | scripts/remap/map_benchmark_estimates.py:149-202 | The count is kept on all such databases iff each new bridge is called for by one class and each old one has its key in the class that calls for it |
| `BridgeTables.BridgesKeepClasses` | scripts/remap/map_benchmark_estimates.py:170-202 | Safe bridges connect no original columns that were not connected |
| `BridgeTables.BridgeMatchSound` | scripts/remap/map_benchmark_estimates.py:245-254 | A query and a known query found through safe bridges count the same |
| `LineMatching.IndexOldLines` | scripts/map_subquery/find_mapping.py:100-105 | The queue of every form holds its old lines in order |
| `LineMatching.BuildMapping` | scripts/map_subquery/find_mapping.py:107-141 | The map pairs the k-th old with the k-th new line of every form; the rest is left in the two unmatched collections |
| `LineMatching.SameForm` | scripts/map_subquery/find_mapping.py:120-130 | Matched lines hold queries with equal normal forms |
| `LineMatching.Injective` | scripts/map_subquery/find_mapping.py:125-130 | No new line is used twice |
| `LineMatching.FirstOccurrences` | scripts/map_subquery/find_mapping.py:120-135 | Of every form exactly the first min(#old, #new) occurrences are matched |
| `LineMatching.UnmatchedOld` | scripts/map_subquery/find_mapping.py:135-137 | Unmatched old lines are the query lines that the map does not mention |
| `LineMatching.UnmatchedNew` | scripts/map_subquery/find_mapping.py:130-133 | Unmatched new lines are the query lines to which nothing is mapped |
| `LineMatching.LoadMapping` | scripts/map_subquery/remap_results.py:11-33 | The loader folds the entries of the file |
| `LineMatching.MapFileRoundTrip` | scripts/map_subquery/find_mapping.py:145-165 | Loading the written file, digits, comments and all, returns the map |
| `LineMatching.EntryLooks` | scripts/map_subquery/find_mapping.py:150-151 | What the lines of the file look like: decimal digits, old line before new |
| `LineMatching.EntriesInOrder` | scripts/map_subquery/find_mapping.py:149-151 | One line for every mapped old line, in ascending order |
| `LineMatching.RemapResults` | scripts/map_subquery/remap_results.py:35-61 | Every new line has the result of the old line mapped to it, or is empty |
| `LineMatching.ResultsFollowQueries` | scripts/map_subquery/remap_results.py:11-61 | Matching, writing, loading and moving together put each old result on the line of an equivalent new query |
| `LpBoundMatching.Disambiguate` | scripts/remap/map_lpbound_to_benchmark.py:253-267 | Among several candidates the first with the query's signature is taken, else the first |
| `LpBoundMatching.FindNearest` | scripts/remap/map_lpbound_to_benchmark.py:269-320 | Of the entries in reach no one has fewer tables than the one found, none with as many has fewer filters, and it is the first of those; nothing is found iff none is in reach |
| `LpBoundMatching.AdmissibleIff` | scripts/remap/map_lpbound_to_benchmark.py:281-309 | An entry qualifies iff its tables are the query's and some bridge tables more, it has all filters of the query, and every class of the query's columns lies in one of its classes |
| `LpBoundMatching.PassesDecide` | scripts/remap/map_lpbound_to_benchmark.py:243-267 | After passes 1 and 2 a query is mapped iff an entry has its tables and cardinality |
| `LpBoundMatching.BuildMapping` | scripts/remap/map_lpbound_to_benchmark.py:243-322 | Every query gets what the passes promise, and pass counts plus unmatched are the number of queries |
| `Serialization.FindConstructorMembers` | duckdb/scripts/generate_serialization.py:597-645 | Constructor arguments, the last constructor member, and the error for an unknown entry |
| `Serialization.GenerateClassCode` | duckdb/scripts/generate_serialization.py:589-712 | The reading instructions of a class |
| `Serialization.GenerateBaseClassCode` | duckdb/scripts/generate_serialization.py:481-576 | The reading instructions of a base class; which members they assign, `OneRouteBase` says |
| `Serialization.OneRoute` | duckdb/scripts/generate_serialization.py:650-705 | Every member that is not deleted reaches the object by exactly one route: as an argument iff the constructor names it, by direct read iff the constructor names neither it nor a later one, and by assignment otherwise |
| `Serialization.OneRouteBase` | duckdb/scripts/generate_serialization.py:541-575 | A member of a base class is assigned iff it is not deleted and neither it nor its property is the enum value or a set parameter; every member is read |
| `Serialization.ArgsInOrder` | duckdb/scripts/generate_serialization.py:597-645 | The arguments are those that the constructor names, in its order, each from the member, the set parameter or the context of this name |
| `SerializationRoundTrip.LeafReads` | duckdb/scripts/generate_serialization.py:589-712 | On any stream the generated code gives the object what its members read in order, whichever way they reach it |
| `SerializationRoundTrip.LeafRoundTrip` | duckdb/scripts/generate_serialization.py:589-742 | A class without clashing ids reads back what it wrote, set parameters of its base included |
| `SerializationTree.SameOrder` | duckdb/scripts/generate_serialization.py:576-582 | Members are read in the order in which they are written, base before derived |
| `SerializationTree.CheckMembers` | duckdb/scripts/generate_serialization.py:747-760 | Accepts a class iff its names and ids are new and distinct |
| `SerializationTree.CheckChildrenForDuplicateMembers` | duckdb/scripts/generate_serialization.py:745-764 | The recursion with copied sets decides the check |
| `SerializationTree.CheckExact` | duckdb/scripts/generate_serialization.py:745-764 | A tree is accepted iff names and ids are distinct on every way from the root |
| `SerializationTree.RoundTrip` | duckdb/scripts/generate_serialization.py:481-742 | At any depth of the tree, whatever follows in the stream, an object comes back and the stream stands behind it: a class's members, and every member of a base class that is not deleted and neither the enum value nor named by a set parameter, whether it has a default or not |
| `SerializationTree.AcceptedRoundTrip` | duckdb/scripts/generate_serialization.py:814-818 | For every accepted tree, what the class writes the root reads back, in the same sense |
| `SerializationUnchecked.LeafIsReadAll` | duckdb/scripts/generate_serialization.py:650-712 | Deserialize of a class without a base fails iff some member finds neither its property nor a default |
| `SerializationUnchecked.UncheckedIff` | duckdb/scripts/generate_serialization.py:814-818 | Every object of a class outside all trees comes back at a target version iff all members can be read there and no two members with one id clash |
| `SerializationUnchecked.StandaloneUnchecked` | duckdb/scripts/generate_serialization.py:814-818 | Two members with one id come back, unchecked, iff the first has no default |
| `IncludeExpansion.Amalgamation.WriteFile` | duckdb/scripts/amalgamation.py:195-234 | Terminates on every graph, cyclic or not, and writes the specified text and set |
| `IncludeExpansion.BodiesAtMostOnce` | duckdb/scripts/amalgamation.py:161-172 | Over any sequence of calls each body is emitted once if its file was written, else not at all |
| `IncludeOrder.LinesInOrder` | duckdb/scripts/amalgamation.py:195-234 | The lines of every written file, from its beginning to its end, code and directives, are in the amalgamation in their order |
| `IncludeOrder.WellNested` | duckdb/scripts/amalgamation.py:217-227 | Every line stands in its own file, and an included file stands in its includer, right before the directive |
| `IncludeExpansion.AcceptedIff` | duckdb/scripts/amalgamation.py:161-234 | The amalgamation is written without an error iff the files that it takes exist and include existing files, none of them twice |
| `IncludeExpansion.WrittenLeast` | duckdb/scripts/amalgamation.py:161-234 | The files that are written are the least set that has what is asked for and what it includes, but for excluded files |
| `IncludeExpansion.DirectivesSatisfiedIff` | duckdb/scripts/amalgamation.py:161-227 | In every accepted sequence of calls the whole body of an included file stands before the directive's place, iff no files outside the excluded ones that can be expanded include each other in a circle |
| `IncludeExpansion.DirectivesSatisfied` | duckdb/scripts/amalgamation.py:217-227 | Without such a circle every directive is satisfied |
| `IncludeExpansion.CycleUnsatisfied` | duckdb/scripts/amalgamation.py:217-227 | Expanding a file of such a circle leaves some directive unsatisfied |
| `IncludeExpansion.MutualIncludes` | duckdb/scripts/amalgamation.py:161-172 | Two files that include each other are satisfied iff one of them is excluded |
| `SplitPacking.Pack` | duckdb/scripts/amalgamation.py:476-502 | No file is lost or reordered, and every part without its last file is below the split size |
| `SplitPacking.AtMostSplits` | duckdb/scripts/amalgamation.py:476-502 | There are at most `nsplits` parts if the last file is not empty |
| `SplitPacking.PartsCount` | duckdb/scripts/amalgamation.py:476-502 | With bytes there are more than `nsplits` parts, then one more, iff the last file is empty and every multiple of the split size is the size of a prefix; without bytes every file is a part |
| `SplitPacking.TooManyParts` | duckdb/scripts/amalgamation.py:476-502 | However `[1, 0]` is packed into one part there are two, and three for three empty files |
| `Checkpoints.Checkpoint.RunStep` | experiment/reproduce.py:543-576 | One turn of the loop: prerequisites, then the checkpoint, then the step |
| `Checkpoints.Checkpoint.RunPhase` | experiment/reproduce.py:529-578 | The loop of a phase with its records |
| `Checkpoints.DoneNeverAgain` | experiment/reproduce.py:284-288 | A step recorded done is never executed again, even if its prerequisites are lost |
| `Checkpoints.SkippedNeverRuns` | experiment/reproduce.py:543-554 | A step that was skipped for a missing prerequisite stays skipped and is never executed |
| `Checkpoints.DoneStaysIff` | experiment/reproduce.py:543-554 | Over any unforced runs a step recorded done stays done iff no run between gets to it with its prerequisite missing; otherwise it is recorded skipped |
| `Checkpoints.RecordAfter` | experiment/reproduce.py:539-576 | The record of every step after a whole run, forced or raising, as a function of its record before and of what raises earlier |
| `Checkpoints.ExecutedIff` | experiment/reproduce.py:539-576 | Exactly when a run executes a selected step |
| `Checkpoints.FailedIsRetried` | experiment/reproduce.py:557-560 | A failed step is executed by the next run that selects it with its prerequisites met |
| `EqualSets.SubsetTransitive` | scripts/parse_starce_stats.py:21-35 | Containment is transitive despite loose matching |
| `EqualSets.FindMaximal` | scripts/parse_starce_stats.py:45-63 | Returns exactly the maximal EqualSets, in order |
| `EqualSets.GetSubEqualSets` | scripts/parse_starce_stats.py:66-73 | Returns exactly the EqualSets contained in the parent |
| `EqualSets.SomeMaximal` | scripts/parse_starce_stats.py:45-73 | Every EqualSet is contained in a maximal one |
| `EqualSets.LeastCoverIff` | scripts/parse_starce_stats.py:45-63 | The maximal sets cover all EqualSets, and every cover needs each of them, up to twins, iff a maximal set is contained in its twins only |
| `EqualSets.ProperLeastCover` | scripts/parse_starce_stats.py:45-63 | If all entries name different columns, the list of maximal sets is the least cover up to twins |
| `EqualSets.NotAntisymmetric` | scripts/parse_starce_stats.py:28-31 | Loose matching makes a set strictly contain one that contains it in turn |
| `EqualSets.SuperfluousMaximal` | scripts/parse_starce_stats.py:28-31 | An entry for a whole table can make a maximal set superfluous |

## Left out

- StarEstimation.EstimateCardinality: is about queries without filters; a table of a star that is merged must have a row whose first collected column is not NULL, since averaging divides by the number of these rows.
- CteNames.AlwaysExactIff: of a query that has both faults, a taken table name and a false conjunct that was dropped, it is only proved that an unsatisfiable rest is answered with 0 (`CteNames.NothingAnswered`), because what such a query answers depends on what its CTEs can count.
- CteNames.ResultsExist: a column that a base table does not have is NULL; only columns that a CTE lacks make the engine refuse a query.
- Filters: `ApplyFilterCoefficient` and the three treatments of predicates scale an estimate by heuristics without a promise.
- MergeBounds.MergeBounded: is about statistics whose degrees are whole, as collection makes them; after averaging degrees are not whole and the tolerance of 1e-6 can cost mass.
- Floating point: degrees, masses and the logarithm of the bucket index are real numbers; the one NaN, the average over two tables without keys, is `None`.
- Integer width: counts are unbounded, so 64-bit overflow is not modelled.
- StarCalibration.Calibration.AddSubset: the power function is a parameter, constrained to return the root; its exponent is rounded to a `float` in the source.
- CollectThreads.EveryInterleaving: a statistic is a value with an abstract addition, read and written back in two steps; finer interleavings inside one addition are not modelled.
- SQL text: regular expressions, quoting, `BETWEEN`, alias prefix stripping and the substring replacement of aliases in filters; queries are lists of conjuncts, and filters are texts with a fixed meaning.
- Self-joins in signatures: table sets collapse them, so every base table occurs once; in star queries every relation is a table of its own name.
- Rendering of canonical joins and sorted tuples as text: they are sets and multisets.
- Scanners.SplitTopLevel: only the separator "and"; letters are compared as ASCII, and white space is space, tab, line feed and carriage return.
- LineMatching.LoadMapping: an integer is a text of digits; signs, spaces and underscores that Python's `int` also takes are not modelled.
- LineMatching.BuildMapping: the normal form of a line is a parameter.
- Serialization.GenerateClassCode: custom code, `set_parameters` of a class that is not a base class, templates, pointer and move syntax; reading a member yields the field of its name.
- SerializationTree.RoundTrip: properties are integers with an id; nesting of objects inside properties is not modelled.
- IncludeExpansion.Amalgamation.WriteFile: a file is a list of code pieces and directives; replacement by substring, licences and line directives are not modelled.
- Checkpoints.Checkpoint.RunPhase: state saves succeed; time stamps, error texts, `--reset-state` and the dry-run preview are not modelled, and phase 2 is the same loop with all prerequisites met.
- Experiment drivers, plotting, database calls, build and release scripts: input and output around the modelled code.
