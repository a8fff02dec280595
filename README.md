# Order profit reconciliation — a Dafny model

`OrderAnalysisApp` is a desktop tool that reconciles three tables:
- an orders export, with 商品ID, 商品编码, 订单状态, 实收金额, and optionally 商品数量;
- an operator mapping that says which 运营人员 sells which product;
- a cost table that gives each 商品编码 its 商品成本.

On a return it also subtracts a 运费 (shipping fee). It reads the fee from the merged row, so any of the three tables can supply it.

From them it computes, per operator:
- order counts;
- the received, returned and shipped-awaiting-receipt counts;
- realised profit (总盈亏) and pending profit (待确认盈利);
- average profit per order.

The result is ranked by profit, with the catch-all operator `其他` last.

This project models the analysis, `analyze_data`, from the loaded tables to the ranked result:
- `Tables`: resolving header aliases.
- `Schema`: reporting missing columns and building typed records.
- `Join`: duplicate detection in the operator table, keep-first de-duplication and the pandas left join.
- `Merge`:
  - the operator join on 商品ID, or on 商品ID + 商品编码 when the mapping has a code column;
  - the `其他` fill;
  - the cost join on 商品编码.
- `Profit`: the per-row profit rule, an ordered keyword classifier on the stripped, lower-cased status.
- `Rollup`: the group-by-operator aggregation and the ranking.
- `Analysis`: the whole pipeline, both as:
  - a reference function `Outcome`;
  - a step-by-step method `Analyze`;
  - the application object whose `AnalyzeData` stores the result.

Values are modelled as follows:
- A table cell is `Missing` (NaN), a number or a text.
- Money and quantities are mathematical reals.
- A table is its header list plus rows mapping headers to cells.
- Text helpers edit strings as Python does: `str.strip()` with Python's whitespace set, `str.lower()` on ASCII, `in` as substring search, and code-point string order.

The sorted result is specified by the ranking relation `Precedes`:
- weight descending, with the sentinel `其他` weighing 0;
- then 总盈亏 descending;
- ties keep the group-by key order (operators ascending), as a stable sort over `groupby`'s sorted groups does.

Where the program's own messages and comments (main/main.py:451-455, 474-477, 538) suggest more than its code does, the model follows the code:
- **Duplicate-warning count.** The count shown in the duplicate warning is `duplicated(keep=False).sum()` (main/main.py:443-449). That is every operator row whose key occurs more than once, including the first occurrence that is kept, so it is not the number of rows de-duplication discards. `Join.DuplicatedCountBound` proves the count is at least the number of discarded rows.
- **Inflation warning.** The warning after the operator join (main/main.py:473-479) cannot fire once the operator keys are de-duplicated. `Analysis.OperatorJoinPreservesOrders` proves it.
- **Missing-operator branch.** The branch reporting a missing 运营人员 column after the merge (main/main.py:621-622) is reachable in the program: a cost table with its own 运营人员 column makes the cost merge (main/main.py:486-491) leave only 运营人员_x and 运营人员_y, so the column test at main/main.py:554 fails. The model ignores a cost table's 运营人员 and does not reach this branch; see the shared-column line under "## Left out".
- **Empty order table.** With no order rows the merged table is empty. `apply` over an empty table returns the table itself, and assigning its columns to the two profit columns 盈亏 and 待确认盈利 (main/main.py:551) raises; the generic handler (main/main.py:624-626) reports the error and no result is stored. The model returns the `EmptyMerge` failure for this case.
- **`已发货待收货`.** A status containing `已发货待收货` or `待收货` is classified as received, not pending. The received group, tried first, contains `收货`. `Profit.AwaitingReceiptIsReceived` and `Profit.CountsOverlap` state this as the code behaves: such a row counts both in 已收货订单 and in 已发货待收货.

## Model

| member | source | states |
|---|---|---|
| Tables.FindColumn | main/main.py:212-217 | no alias is a header exactly when the result is None; otherwise the result is a header, it is an alias, and no earlier alias is a header |
| Tables.CellLeTotal | main/main.py:556 | any two group keys are ordered one way or the other (groupby sorts its keys) |
| Tables.CellLeTransitive | main/main.py:556 | the group-key order is transitive |
| Text.Lower | main/main.py:495 | lower-casing keeps the length and leaves no upper-case ASCII letter; every other character is unchanged and an upper-case letter becomes the letter 32 code points on |
| Text.LowerChar | main/main.py:495 | the result is never an upper-case ASCII letter; an upper-case letter becomes the lower-case letter 32 code points on, every other character stays |
| Text.LowerIdempotent | main/main.py:495 | lower-casing twice is lower-casing once, and a text with no upper-case letter is unchanged |
| Text.Strip | main/main.py:495 | `strip()` never lengthens its input and leaves no whitespace at either end |
| Text.SliceWithin | main/main.py:495 | a slice of a slice of the status is the matching slice of the status |
| Text.TrimLeftCuts | main/main.py:495 | left trimming removes exactly a leading run of whitespace and stops at a non-space |
| Text.TrimRightCuts | main/main.py:495 | right trimming removes exactly a trailing run of whitespace and stops at a non-space |
| Text.StripSlice | main/main.py:495 | `strip()` is a contiguous slice of the input with only whitespace cut on both sides |
| Text.ContainsStripped | main/main.py:495 | a keyword without surrounding whitespace that occurs in the status also occurs in the stripped status |
| Text.ContainsStrip | main/main.py:495 | a keyword without surrounding whitespace occurs in the stripped status iff it occurs in the raw status |
| Text.ContainsLower | main/main.py:495 | a keyword with no ASCII letter occurs in the lower-cased status iff it occurs in the status |
| Text.ContainsVia | main/main.py:528-537 | an occurrence of a keyword that contains another keyword is an occurrence of the other, as `已收货` contains `收货` |
| Text.StrLeTotal | main/main.py:556 | Python string order is total |
| Text.StrLeTransitive | main/main.py:556 | Python string order is transitive |
| Schema.ResolveFinds | main/main.py:361-372 | each field resolves to a header of its own table that is one of its aliases, and to none only when none of its aliases is a header |
| Schema.NoteMissing | main/main.py:376-391 | one `if not column: append` step adds the field's message exactly when the field did not resolve |
| Schema.CollectMissing | main/main.py:375-391 | the method's list of messages is `MissingMessages` of the resolution |
| Schema.MissingMessagesExactly | main/main.py:374-393 | each of the eight messages is listed iff its column was not found; only those messages, each at most once, in source order; the list is empty iff every required column was found |
| Schema.MissingMessagesNamed | main/main.py:376-391 | each of the eight named messages is listed iff its column was not found |
| Schema.MissingMessagesKeep | main/main.py:375-391 | the message of field i is listed iff field i did not resolve |
| Schema.MissingMessagesOnce | main/main.py:375-391 | no message is listed twice |
| Schema.MissingMessagesNone | main/main.py:393 | no message is listed iff every required column was found |
| Schema.UnresolvedPrefix | main/main.py:375-391 | one more field adds its message, or nothing, after the earlier messages |
| Schema.UnresolvedOfFour | main/main.py:375-391 | four consecutive checks add their messages in order |
| Schema.UnresolvedOfEight | main/main.py:375-391 | the eight checks add their messages one after another, in source order |
| Schema.UnresolvedKeeps | main/main.py:375-391 | each message is kept iff its flag says its column is missing |
| Schema.UnresolvedMembers | main/main.py:375-391 | only messages from the given list are reported |
| Schema.UnresolvedDistinct | main/main.py:375-391 | distinct messages stay distinct when filtered |
| Schema.UnresolvedEmpty | main/main.py:393 | the filtered list is empty iff no column is missing |
| Schema.MessagesDistinct | main/main.py:375-391 | the eight messages are pairwise distinct |
| Schema.QuantityDefaults | main/main.py:408-416 | with no quantity column every order has quantity 1; with one, a missing or non-numeric cell becomes 1 and a number is kept |
| Schema.CanonicalNamesResolve | main/main.py:361-372 | headers already in canonical form resolve to themselves |
| Schema.SuffixedIsNotShipping | main/main.py:462-491 | a column renamed with the merge suffix `_x` or `_y` is never the 运费 column |
| Schema.RightHeadersShipping | main/main.py:462-491 | after a merge, the right side's 运费 keeps its name iff the right side has it and the left does not |
| Schema.ShippingAfterMerge | main/main.py:462-491 | after a merge whose keys do not include 运费, there is a 运费 column iff exactly one side has one |
| Schema.FeeSourceExactly | main/main.py:462-491 | the table chosen as the 运费 source is the one whose 运费 keeps its name through the operator merge and the cost merge; some table is chosen iff a 运费 column exists after both merges |
| Schema.FeesOfOtherTables | main/main.py:533 | only the source table's records carry a 运费, and the orders' records carry their row's 运费 when the orders table is the source |
| Join.KeepFirst | main/main.py:458 | de-duplication never adds rows and keeps only rows of the table |
| Join.DropDuplicates | main/main.py:458 | the kept rows are `KeepFirst`: the first row of each key, in order |
| Join.DuplicatedAmong | main/main.py:443-446 | at most n rows of a prefix of length n are flagged |
| Join.DuplicatedCount | main/main.py:443-449 | the duplicate count is at most the number of operator rows |
| Join.CountDuplicated | main/main.py:443-449 | the count equals `DuplicatedCount`: rows whose key occurs more than once (keep=False) |
| Join.KeepFirstKeys | main/main.py:458 | de-duplication keeps the set of keys |
| Join.KeepFirstUnique | main/main.py:458 | after de-duplication every key occurs once |
| Join.KeepFirstOfUnique | main/main.py:448-458 | with unique keys de-duplication changes nothing |
| Join.DuplicatedCountZero | main/main.py:443-448 | the duplicate count is zero iff all keys are unique |
| Join.DuplicatedCountBound | main/main.py:449-458 | the duplicate count is at least the number of rows de-duplication discards |
| Join.OccurrencesPrefix | main/main.py:443-446 | two rows sharing a key make that key occur at least twice |
| Join.OccurrencesOne | main/main.py:443-446 | a row's own key occurs at least once |
| Join.DuplicatedAmongZero | main/main.py:443-448 | no row of a prefix is flagged iff no key in it repeats in the whole table |
| Join.DiscardedAmong | main/main.py:449-458 | on every prefix, the rows de-duplication drops are no more than the flagged rows |
| Join.OccurrencesUnique | main/main.py:443-446 | with unique keys each key occurs at most once |
| Join.OccurrencesWitness | main/main.py:443-446 | a key that occurs is the key of some row |
| Join.Lookup | main/main.py:462-467 | no right row has the key exactly when the result is None; otherwise the result is the first right row with that key |
| Join.MatchingNone | main/main.py:462-467 | when no right row has the key, the join finds no match |
| Join.MatchingSingle | main/main.py:462-467 | under unique keys a row's own key matches that row alone |
| Join.MatchingOfUnique | main/main.py:462-467 | under unique keys the matches are exactly the looked-up row, or none |
| Join.JoinRowElements | main/main.py:462-467 | every output row of a left row combines it with one match, or with none |
| Join.LeftJoin | main/main.py:460-491 | a left join never has fewer rows than its left input |
| Join.MatchRows | main/main.py:462-467 | the method's matches are `Matching`: the right rows with the key, in order |
| Join.JoinOne | main/main.py:462-467 | the method's output rows for one left row are `JoinRow` of it |
| Join.LeftJoinRows | main/main.py:460-491 | the method's rows are `LeftJoin` of the inputs |
| Join.LookupAt | main/main.py:462-467 | the lookup returns the right row at j when j is the first index with the key |
| Join.LookupExtends | main/main.py:462-467 | a key found in a prefix is found at the same row in the whole table |
| Join.LookupLast | main/main.py:462-467 | a key missing from a prefix is found in the last row if that row has it, and nowhere otherwise |
| Join.JoinRowStartsWithLookup | main/main.py:462-467 | a left row's join output is non-empty and starts with the row combined with its lookup |
| Join.LookupIsFirstMatch | main/main.py:462-467 | the lookup is the first of the matches, or None when there is none |
| Join.LeftJoinCovers | main/main.py:460-491 | a left join loses no left row: each appears combined with its lookup |
| Join.LeftJoinOfUnique | main/main.py:462-467 | with unique right keys the join keeps every left row once, in order, combined with its lookup |
| Merge.FillOperator | main/main.py:483 | the operator is never missing; unmatched orders get `其他`; a matched, non-missing operator is kept |
| Merge.AssignOperators | main/main.py:460-483 | the operator join has at least as many rows as orders, and after the fill no row has a missing operator |
| Merge.AssignOperatorsCover | main/main.py:460-483 | no order is lost in the operator join: each appears with the first operator row that has its key, filled |
| Merge.AssignOperatorsKeepsOrders | main/main.py:460-483 | with unique operator keys every order is kept once and in order; its operator is the filled lookup, and its 运费 is its own or else the matched operator row's |
| Merge.AssignedOperatorsPresent | main/main.py:483 | after the operator join and the `其他` fill no row has a missing operator |
| Merge.UnassignedExactly | main/main.py:482-483 | an order is attributed to `其他` iff no operator row has its key, or the row with its key names no one or `其他` |
| Merge.IdOnlyIgnoresCode | main/main.py:427-467 | when joining by 商品ID only, with unique operator keys, giving the orders other 商品编码 changes no order's operator or 运费 |
| Merge.AttachCostsKeepsRows | main/main.py:486-491 | with unique cost codes every row is kept once and in order with its order and operator; its cost is the matched 商品成本 or missing, and its 运费 is its own or else the matched cost row's |
| Merge.CarryShipping | main/main.py:462-491 | a merged row takes the matched row's 运费 when it has none of its own, and keeps its own when the match has none |
| Merge.JoinedShipping | main/main.py:462-491 | with unique operator keys and cost codes, an order's row after both joins carries its own 运费, else its operator row's, else its cost row's |
| Merge.AttachCosts | main/main.py:486-491 | the cost join has at least as many rows as its input, and each output row has the order and operator of an input row |
| Merge.AttachCostsCover | main/main.py:486-491 | no row is lost in the cost join: each appears with the first cost row that has its 商品编码 |
| Merge.AttachCostsFromAssigned | main/main.py:486-491 | each row of the cost join has the order and operator of one of its input rows |
| Profit.StatusText | main/main.py:495 | the normalised status has no upper-case ASCII letter; for a text status it is no longer than the text and has no whitespace at either end; a missing status becomes `nan` |
| Profit.Classify | main/main.py:528-546 | a category other than the fallback holds one of its keywords, and no group tried before it holds any |
| Profit.ProfitLoss | main/main.py:494-548 | a missing cost gives zero profit and zero pending; at most one of the two is non-zero; pending is non-zero only for shipped statuses; waiting statuses give zero |
| Profit.KeywordsArePlain | main/main.py:528-543 | no keyword has whitespace at either end or an ASCII letter |
| Profit.ContainsAnyNormalised | main/main.py:495 | a keyword group occurs in the stripped, lower-cased status iff it occurs in the raw status |
| Profit.ClassifyNormalised | main/main.py:494-546 | classifying the normalised status is the same as classifying the raw text |
| Profit.StatusMatches | main/main.py:558-560 | the `str.contains(case=False, na=False)` test holds only for text statuses, and for keywords with no ASCII letter and no surrounding whitespace it holds iff the raw text contains one of them |
| Profit.LowerKeepsGroup | main/main.py:558-560 | for such keywords, lower-casing does not change whether the text holds one of them |
| Profit.NanIsOther | main/main.py:495 | a missing status prints as `nan` and takes the fallback branch |
| Profit.NanHoldsNoKeyword | main/main.py:558-560 | `nan` holds no status keyword |
| Profit.EmptyIsOther | main/main.py:544-546 | the empty status takes the fallback branch |
| Profit.ReceivedCountMatchesBranch | main/main.py:558 | a row counts in 已收货订单 iff the profit rule takes the received branch |
| Profit.TextReceived | main/main.py:558 | the same, for a text status |
| Profit.ReceivedKeywordsReduce | main/main.py:528 | the received group holds iff the status contains `完成` or `收货` |
| Profit.ShippedKeywordsReduce | main/main.py:537 | the shipped group holds iff the status contains `已发货` or `待收货` |
| Profit.AwaitingReceiptIsReceived | main/main.py:528-537 | any status containing `待收货` takes the received branch |
| Profit.ShippedBranchExactly | main/main.py:528-537 | the shipped branch is taken iff the status contains `已发货`, no `完成`, no `收货` and no return keyword |
| Profit.CountsOverlap | main/main.py:558-560 | `已发货待收货` counts both as received and as shipped |
| Profit.HoldsKeyword | main/main.py:528-543 | an occurrence of one keyword makes its group hold |
| Profit.ReceivedRowRealises | main/main.py:528-529 | a received row with a cost realises the amount minus the total cost and has nothing pending |
| Profit.ReturnedRowLoses | main/main.py:530-536 | a returned row with a cost loses the total cost plus the merged row's 运费 |
| Profit.ShippedRowIsPending | main/main.py:537-541 | a shipped row with a cost has its margin as pending profit and no realised profit |
| Profit.AwaitingReceiptRowIsRealised | main/main.py:528-537 | a row whose status contains `待收货` has its margin realised |
| Profit.FallbackIsRealised | main/main.py:544-546 | an unrecognised status with a cost has its margin realised |
| Profit.ReceivedStatus | main/main.py:528 | `已收货` is received |
| Profit.TextCostIsZeroCost | main/main.py:509-512 | a text cost counts as zero cost |
| Profit.NonNumericAmountIsZero | main/main.py:497-501 | a missing or non-numeric amount counts as zero |
| Profit.ReceivedExample | main/main.py:497-529 | a received order of 100 with two items at unit cost 10 realises 80 and has nothing pending |
| Rollup.One | main/main.py:551-563 | one row contributes size 1; it counts in 订单总数 iff its 商品ID is present and in each status count iff that group's case-insensitive `str.contains` holds; it adds its own 盈亏 and 待确认盈利 |
| Rollup.Entries | main/main.py:551 | one entry per merged row, with its operator and its tally |
| Rollup.NamesExactly | main/main.py:556 | the groups are exactly the operators present in the rows, each once |
| Rollup.TallyOfAbsent | main/main.py:556 | an operator with no rows has an empty tally |
| Rollup.TallyOfPresent | main/main.py:556 | an operator with a row has a non-empty group |
| Rollup.GroupsNonEmpty | main/main.py:556-563 | every group has at least one row, so its mean is defined |
| Rollup.TallyOfSnoc | main/main.py:556-563 | appending a row adds its tally to its own group only |
| Rollup.PlusAssociates | main/main.py:557-563 | adding tallies associates and commutes |
| Rollup.SumOverSnoc | main/main.py:556-563 | summing over distinct groups: a row adds its tally iff its group is listed |
| Rollup.Conservation | main/main.py:556-563 | the group tallies add up to the tally of all rows |
| Rollup.GroupByOperator | main/main.py:556-564 | the method returns the groups and, for each group, exactly the tally of its rows |
| Rollup.Summarise | main/main.py:557-570 | 平均每单盈亏 times the group size is 总盈亏, the sum of the group's profit; the other columns are the group's counts and pending sum |
| Rollup.SummariesSum | main/main.py:561-562 | the summary columns add up to the sums over the groups |
| Rollup.PrecedesTotal | main/main.py:578-579 | any two result rows are ranked one way or the other |
| Rollup.PrecedesTransitive | main/main.py:578-579 | the ranking is transitive |
| Rollup.InsertMembers | main/main.py:579 | insertion adds the new row and keeps every other |
| Rollup.InsertPermutes | main/main.py:579 | insertion adds exactly one occurrence of the new row |
| Rollup.InsertSums | main/main.py:579 | insertion adds the new row's totals |
| Rollup.InsertRanked | main/main.py:579 | inserting into a ranked list gives a ranked list |
| Rollup.SumsCons | main/main.py:579 | sums over a list with a head are the head plus the rest |
| Rollup.RankSummaries | main/main.py:579 | sorting gives a ranked permutation of the group summaries |
| Rollup.RankStep | main/main.py:579 | inserting the first summary into the ranked rest gives a ranked permutation of all of them |
| Rollup.RankCorrect | main/main.py:579 | sorting keeps the 总盈亏, 待确认盈利 and 订单总数 column sums |
| Rollup.RankMembers | main/main.py:579 | sorting keeps the length and members, and distinct operators |
| Rollup.InsertDistinct | main/main.py:579 | inserting a new operator keeps operators distinct |
| Rollup.SentinelOnlyFollowedBySentinel | main/main.py:578-579 | in a ranked list only `其他` rows follow an `其他` row |
| Rollup.UnassignedLast | main/main.py:577-579 | with distinct operators the `其他` row is last |
| Rollup.TotalsDescending | main/main.py:579 | among the other operators 总盈亏 is non-increasing |
| Rollup.ResultTable | main/main.py:556-579 | every group is non-empty; the result is ranked, has one row per operator present, and each row is a group summary |
| Rollup.BuildResult | main/main.py:556-579 | the grouping, aggregation and sort steps give `ResultTable` of the rows |
| Rollup.RollupConserves | main/main.py:556-579 | the result's 总盈亏, 待确认盈利 and 订单总数 add up to the totals over all merged rows |
| Rollup.RollupRows | main/main.py:556-570 | one result row per operator present, distinct, each the summary of its group |
| Rollup.SummariesOfGroups | main/main.py:556-570 | the unsorted group summaries have distinct operators and summarise their groups |
| Rollup.RollupOrder | main/main.py:577-579 | the result is ranked and the `其他` row, if any, is last |
| Analysis.KeptOperators | main/main.py:448-458 | the operator rows the join uses are rows of the table with unique keys and the same keys as the table, and are the table itself when it has no duplicates |
| Analysis.OutcomeShape | main/main.py:393-551 | a schema error names at least one column; a success has a non-empty order table, at least as many merged rows as orders, and a ranked result |
| Analysis.Analyze | main/main.py:359-604 | the step-by-step analysis returns exactly the reference `Outcome` |
| Analysis.ReconcileTables | main/main.py:419-581 | the merge, profit and grouping steps return exactly the reference `Reconcile` |
| Analysis.SchemaErrorExactly | main/main.py:374-626 | the analysis stops with a schema error iff a required column is missing, and then lists the missing columns' messages; with all columns found it fails on the quantity clash iff the quantity column clashes with an existing 商品数量, and otherwise fails on the empty merge iff the order table has no rows; it succeeds iff none of these happens |
| Analysis.ReconcileFails | main/main.py:460-551 | after the schema checks the analysis fails iff the order table is empty, and then with the empty-merge failure |
| Analysis.DuplicateWarning | main/main.py:440-458 | with all columns found, no quantity clash and at least one order the analysis succeeds; the warning count is at least the discarded operator rows, is zero iff the keys are unique, and the kept rows have unique keys |
| Analysis.OperatorJoinPreservesOrders | main/main.py:462-483 | with all columns found, no quantity clash and at least one order, the inflation warning never fires, and no merged row lacks an operator |
| Analysis.OutcomeMerged | main/main.py:460-491 | with all columns found, no quantity clash and at least one order, the outcome's merged rows are the two joins, with one operator-joined row per order, in order |
| Analysis.MergedRowsCover | main/main.py:460-491 | with all columns found, no quantity clash and at least one order, the analysis succeeds and no order is lost in the merge: every order's record is the order of some merged row; with unique cost codes the merged rows are the orders, in order |
| Analysis.CarriedFee | main/main.py:462-533 | carrying 运费 through the two joins gives the source table's cell, since the other tables' records carry none |
| Analysis.MergedShipping | main/main.py:462-533 | with all columns found, no quantity clash and unique cost codes, each order's merged row carries the 运费 of the source table: the order's own, its operator row's or its cost row's, and none when no table's 运费 keeps its name |
| Analysis.ResultConservesAndRanks | main/main.py:551-581 | with all columns found, no quantity clash and at least one order, the result's column sums equal the totals over the merged rows; the result is ranked, one row per operator, `其他` last |
| Analysis.OrderAnalysisApp.constructor | main/main.py:15-18 | no tables and no result at start |
| Analysis.OrderAnalysisApp.Keep | main/main.py:581 | the stored result becomes the new summaries on success and stays otherwise; the tables do not change |
| Analysis.OrderAnalysisApp.AnalyzeData | main/main.py:345-357 | without loaded tables the analysis fails as not loaded; otherwise it returns `Outcome` of the tables and stores the summaries only on success |

## Left out
- The Tkinter user interface is left out: file pickers, the result tree, message boxes, the status bar, the preview and export (`export_results`), `clear_data` and `load_data`. It is not part of the computation. Not having the tables loaded is modelled as the `NotLoaded` failure. It covers the unselected-file warning (main/main.py:347-349) and a table that is still not loaded when the analysis starts, where the program calls `load_data()` and stops if it fails (main/main.py:355-357). A successful load from inside the analysis is file I/O and is left out.
- File reading and encoding detection are left out. They are I/O; tables are given as values.
- Warning and status texts are left out. The duplicate warning, the inflation note, the 其他 and missing-cost counts and the merge description are returned as fields of `Report`, not as formatted strings.
- Analysis.OrderAnalysisApp.AnalyzeData: does not model the program's reassignment of `order_df`, `operator_df` and `cost_df`. Those are the renamed columns, the added 商品数量 column and the de-duplicated operator table. In the model the loaded tables stay unchanged and each analysis starts from them. In the program a second analysis sees the de-duplicated operator table, finds no duplicates and shows no duplicate warning; in the model it reports the same count again.
- Rollup.RankSummaries: sorts on unrounded 总盈亏, whereas the program rounds to two decimals first (main/main.py:573-575). Groups whose totals differ by less than a rounding step may be ordered differently. Rounding is not modelled.
- Schema.QuantityDefaults: a text cell in the quantity column counts as 1 even when it holds digits such as "2". `pd.to_numeric(errors='coerce')` (main/main.py:412) would parse such a cell as a number; the model does not parse text.
- Profit.ProfitLoss: uses exact reals instead of floating point. A text cell in 实收金额, 商品成本 or 运费 counts as non-numeric (zero), whereas Python's `float()` would parse a numeric string.
- Text.Lower: lower-cases ASCII letters only. `str.lower()` also maps other scripts. Lower-casing cannot create or destroy an occurrence of the CJK status keywords.
- Columns other than 运费 that share a name across tables are left out. pandas suffixes such columns with `_x`/`_y`, and the program then fails at the first one it reads by name. A cost table with its own 商品ID column leaves only 商品ID_x and 商品ID_y, so the `('商品ID', 'count')` aggregation (main/main.py:557) raises. An orders table with its own 运营人员 fails at the fill (main/main.py:483), and one with its own 商品成本 fails in the profit step (main/main.py:505). In these three cases the generic handler (main/main.py:624-626) reports the error. A cost table with its own 运营人员 column leaves only 运营人员_x and 运营人员_y, the column test at main/main.py:554 fails, and the program shows the missing-operator error (main/main.py:622). In all four cases no result is stored; the model keeps one field of each kind and returns a result. For 运费 the suffixing is modelled (`Schema.FeeSourceExactly`).
- pandas failures other than the quantity-column clash are left out. Examples are mismatched key dtypes in `merge`, or an operator group whose 订单状态 values are all numeric, so that `.str` raises AttributeError in the status counts (main/main.py:558-560). They would fall into the generic error handler (main/main.py:624-626).
- Tables.CellLe: orders group keys numbers before texts, as pandas' sort of mixed group keys does. It also places a missing key first, a case that never arises here since the operator column is filled with `其他` before grouping (main/main.py:483).
- Analysis.MergedRowsCover: states that the merged rows are exactly the orders only when cost codes are unique. A repeated 商品编码 in the cost table multiplies rows, which the model reproduces but does not quantify.
- The placeholder test file under tests/ holds no assertions about the analysis.
