/**
 * The per-operator rollup `groupby('运营人员').agg(...)` over the joined
 * rows and the ordering of its result: groups with an operator first, by
 * 总盈亏 descending, and the sentinel group `'其他'` last.
 */
module Rollup {
  import opened Tables
  import opened Text
  import opened Records
  import opened Join
  import opened Profit

  /**
   * The aggregates of one group before the mean is taken: rows, rows with
   * a 商品ID, the three status counts, and the two profit sums.
   */
  datatype Tally = Tally(size: nat, ids: nat, received: nat, returned: nat, shipped: nat,
                         realised: real, pending: real)

  const Zero: Tally := Tally(0, 0, 0, 0, 0, 0.0, 0.0)

  function Plus(a: Tally, b: Tally): Tally {
    Tally(a.size + b.size, a.ids + b.ids, a.received + b.received, a.returned + b.returned,
          a.shipped + b.shipped, a.realised + b.realised, a.pending + b.pending)
  }

  function Indicator(b: bool): nat {
    if b then 1 else 0
  }

  /** What one joined row adds to its group. */
  function One(row: Joined): (t: Tally)
    ensures t.size == 1
    ensures t.ids == Indicator(!row.order.id.Missing?)
    ensures t.received == Indicator(StatusMatches(row.order.status, ReceivedKeywords))
    ensures t.returned == Indicator(StatusMatches(row.order.status, ReturnedKeywords))
    ensures t.shipped == Indicator(StatusMatches(row.order.status, ShippedKeywords))
    ensures t.realised == ProfitLoss(row).realised && t.pending == ProfitLoss(row).pending
  {
    var p := ProfitLoss(row);
    Tally(1, Indicator(!row.order.id.Missing?),
          Indicator(StatusMatches(row.order.status, ReceivedKeywords)),
          Indicator(StatusMatches(row.order.status, ReturnedKeywords)),
          Indicator(StatusMatches(row.order.status, ShippedKeywords)),
          p.realised, p.pending)
  }

  /**
   * A joined row once 盈亏 and 待确认盈利 are computed: its operator and
   * what it adds to that operator's group.
   */
  datatype Entry = Entry(operator: Cell, tally: Tally)

  function EntryOf(row: Joined): Entry {
    Entry(row.operator, One(row))
  }

  /** Each entry stands for exactly one row. */
  predicate OneRowEach(rows: seq<Entry>) {
    forall i | 0 <= i < |rows| :: rows[i].tally.size == 1
  }

  function Entries(rows: seq<Joined>): (es: seq<Entry>)
    ensures |es| == |rows| && OneRowEach(es)
    ensures forall i | 0 <= i < |rows| :: es[i].operator == rows[i].operator && es[i].tally == One(rows[i])
  {
    seq(|rows|, i requires 0 <= i < |rows| => EntryOf(rows[i]))
  }

  /** All rows aggregated as one group. */
  function Total(rows: seq<Entry>): Tally {
    if rows == [] then Zero
    else Plus(Total(rows[..|rows| - 1]), rows[|rows| - 1].tally)
  }

  /** The aggregates of the rows whose operator is `name`. */
  function TallyOf(rows: seq<Entry>, name: Cell): Tally {
    if rows == [] then Zero
    else
      var n := |rows| - 1;
      if rows[n].operator == name then Plus(TallyOf(rows[..n], name), rows[n].tally)
      else TallyOf(rows[..n], name)
  }

  /** The distinct operators of `rows`, in order of first appearance. */
  function Names(rows: seq<Entry>): seq<Cell> {
    if rows == [] then []
    else
      var n := |rows| - 1;
      if rows[n].operator in Names(rows[..n]) then Names(rows[..n])
      else Names(rows[..n]) + [rows[n].operator]
  }

  /** The groups of `names` aggregated together. */
  function SumOver(rows: seq<Entry>, names: seq<Cell>): Tally {
    if names == [] then Zero
    else Plus(SumOver(rows, names[..|names| - 1]), TallyOf(rows, names[|names| - 1]))
  }

  /** The groups are exactly the operators that occur, each once. */
  lemma {:induction false} NamesExactly(rows: seq<Entry>)
    ensures forall i | 0 <= i < |rows| :: rows[i].operator in Names(rows)
    ensures forall c | c in Names(rows) :: exists i | 0 <= i < |rows| :: rows[i].operator == c
    ensures Distinct(Names(rows))
  {
    if rows != [] {
      var n := |rows| - 1;
      NamesExactly(rows[..n]);
      forall i | 0 <= i < n ensures rows[i].operator in Names(rows) {
        assert rows[..n][i] == rows[i];
      }
      forall c | c in Names(rows) ensures exists i | 0 <= i < |rows| :: rows[i].operator == c {
        if c in Names(rows[..n]) {
          var i :| 0 <= i < n && rows[..n][i].operator == c;
          assert rows[i].operator == c;
        }
      }
    }
  }

  /** A name no row carries has an empty group. */
  lemma {:induction false} TallyOfAbsent(rows: seq<Entry>, c: Cell)
    requires forall i | 0 <= i < |rows| :: rows[i].operator != c
    ensures TallyOf(rows, c) == Zero
  {
    if rows != [] {
      var n := |rows| - 1;
      assert forall i | 0 <= i < n :: rows[..n][i] == rows[i];
      TallyOfAbsent(rows[..n], c);
    }
  }

  /** Every group that occurs has at least one row, so its mean is defined. */
  lemma {:induction false} TallyOfPresent(rows: seq<Entry>, i: nat)
    requires OneRowEach(rows) && i < |rows|
    ensures TallyOf(rows, rows[i].operator).size >= 1
  {
    var n := |rows| - 1;
    if i < n {
      assert rows[..n][i] == rows[i];
      assert OneRowEach(rows[..n]);
      TallyOfPresent(rows[..n], i);
    }
  }

  lemma GroupsNonEmpty(rows: seq<Entry>)
    requires OneRowEach(rows)
    ensures forall c | c in Names(rows) :: TallyOf(rows, c).size >= 1
  {
    NamesExactly(rows);
    forall c | c in Names(rows) ensures TallyOf(rows, c).size >= 1 {
      var i :| 0 <= i < |rows| && rows[i].operator == c;
      TallyOfPresent(rows, i);
    }
  }

  /** Appending a row changes only its own group, by exactly that row. */
  lemma TallyOfSnoc(rows: seq<Entry>, r: Entry, c: Cell)
    ensures TallyOf(rows + [r], c) == if r.operator == c then Plus(TallyOf(rows, c), r.tally) else TallyOf(rows, c)
  {
    assert (rows + [r])[..|rows|] == rows;
  }

  lemma PlusAssociates(a: Tally, b: Tally, c: Tally)
    ensures Plus(a, Plus(b, c)) == Plus(Plus(a, b), c)
    ensures Plus(Plus(a, b), c) == Plus(Plus(a, c), b)
    ensures Plus(Zero, a) == a
  {
  }

  /** Over distinct names, appending a row adds it to the sum once, if its group is among them. */
  lemma {:induction false} SumOverSnoc(rows: seq<Entry>, r: Entry, names: seq<Cell>)
    requires Distinct(names)
    ensures r.operator in names ==> SumOver(rows + [r], names) == Plus(SumOver(rows, names), r.tally)
    ensures r.operator !in names ==> SumOver(rows + [r], names) == SumOver(rows, names)
  {
    if names != [] {
      var n := |names| - 1;
      var p := names[..n];
      var x := names[n];
      assert names == p + [x];
      assert Distinct(p);
      SumOverSnoc(rows, r, p);
      TallyOfSnoc(rows, r, x);
      var before := SumOver(rows, p);
      var t := TallyOf(rows, x);
      if r.operator == x {
        assert r.operator !in p;
        PlusAssociates(before, t, r.tally);
      } else if r.operator in p {
        PlusAssociates(before, r.tally, t);
      }
    }
  }

  /** Conservation: the groups together aggregate exactly all rows. */
  lemma {:induction false} Conservation(rows: seq<Entry>)
    ensures SumOver(rows, Names(rows)) == Total(rows)
  {
    if rows != [] {
      var n := |rows| - 1;
      var p := rows[..n];
      var r := rows[n];
      assert rows == p + [r];
      Conservation(p);
      NamesExactly(p);
      SumOverSnoc(p, r, Names(p));
      if r.operator !in Names(p) {
        var names := Names(p) + [r.operator];
        assert names[..|names| - 1] == Names(p);
        TallyOfAbsent(p, r.operator);
        TallyOfSnoc(p, r, r.operator);
        PlusAssociates(SumOver(p, Names(p)), Zero, r.tally);
        PlusAssociates(r.tally, Zero, Zero);
      }
    }
  }

  /**
   * `groupby('运营人员')` as one pass over the rows: each row is added to
   * the tally of its operator, found by a search, or opens a new one.
   */
  method GroupByOperator(rows: seq<Entry>) returns (names: seq<Cell>, tallies: seq<Tally>)
    ensures names == Names(rows)
    ensures |tallies| == |names|
    ensures forall k | 0 <= k < |names| :: tallies[k] == TallyOf(rows, names[k])
  {
    names := [];
    tallies := [];
    for i := 0 to |rows|
      invariant names == Names(rows[..i])
      invariant |tallies| == |names|
      invariant forall k | 0 <= k < |names| :: tallies[k] == TallyOf(rows[..i], names[k])
    {
      var row := rows[i];
      var k := 0;
      while k < |names| && names[k] != row.operator
        invariant 0 <= k <= |names|
        invariant forall q | 0 <= q < k :: names[q] != row.operator
      {
        k := k + 1;
      }
      assert rows[..i + 1] == rows[..i] + [row];
      NamesExactly(rows[..i]);
      forall q | 0 <= q < |names| {
        TallyOfSnoc(rows[..i], row, names[q]);
      }
      if k < |names| {
        tallies := tallies[k := Plus(tallies[k], row.tally)];
      } else {
        TallyOfAbsent(rows[..i], row.operator);
        TallyOfSnoc(rows[..i], row, row.operator);
        names := names + [row.operator];
        tallies := tallies + [row.tally];
      }
    }
    assert rows[..|rows|] == rows;
  }

  /** One row of the result table: 运营, the three counts, 总盈亏, 待确认盈利 and 平均每单盈亏. */
  datatype Summary = Summary(operator: Cell, orders: nat, received: nat, returned: nat, shipped: nat,
                             total: real, pending: real, average: real)

  /** The result row of a non-empty group; its mean is the total over the group's rows. */
  function Summarise(name: Cell, t: Tally): (s: Summary)
    requires t.size >= 1
    ensures s.average * (t.size as real) == s.total == t.realised
    ensures s.operator == name && s.pending == t.pending && s.orders == t.ids
    ensures s.received == t.received && s.returned == t.returned && s.shipped == t.shipped
  {
    Summary(name, t.ids, t.received, t.returned, t.shipped, t.realised, t.pending,
            t.realised / (t.size as real))
  }

  /** The result rows of the groups `names`, in that order. */
  function SummariesFor(rows: seq<Entry>, names: seq<Cell>): seq<Summary>
    requires forall c | c in names :: TallyOf(rows, c).size >= 1
  {
    seq(|names|, k requires 0 <= k < |names| => Summarise(names[k], TallyOf(rows, names[k])))
  }

  function SumTotal(s: seq<Summary>): real {
    if s == [] then 0.0 else SumTotal(s[..|s| - 1]) + s[|s| - 1].total
  }

  function SumPending(s: seq<Summary>): real {
    if s == [] then 0.0 else SumPending(s[..|s| - 1]) + s[|s| - 1].pending
  }

  function SumOrders(s: seq<Summary>): nat {
    if s == [] then 0 else SumOrders(s[..|s| - 1]) + s[|s| - 1].orders
  }

  /** The result rows carry the sums of their groups. */
  lemma {:induction false} SummariesSum(rows: seq<Entry>, names: seq<Cell>)
    requires forall c | c in names :: TallyOf(rows, c).size >= 1
    ensures SumTotal(SummariesFor(rows, names)) == SumOver(rows, names).realised
    ensures SumPending(SummariesFor(rows, names)) == SumOver(rows, names).pending
    ensures SumOrders(SummariesFor(rows, names)) == SumOver(rows, names).ids
  {
    if names != [] {
      var n := |names| - 1;
      assert SummariesFor(rows, names)[..n] == SummariesFor(rows, names[..n]);
      SummariesSum(rows, names[..n]);
    }
  }

  /** `排序权重`: 0 for the sentinel group, 1 for every other. */
  function Weight(s: Summary): nat {
    if s.operator == Str(Unassigned) then 0 else 1
  }

  /**
   * The order of the result: weight descending, then 总盈亏 descending; ties
   * keep the group order, which is the operators ascending.
   */
  predicate Precedes(a: Summary, b: Summary) {
    Weight(a) > Weight(b)
    || (Weight(a) == Weight(b) && (a.total > b.total || (a.total == b.total && CellLe(a.operator, b.operator))))
  }

  lemma PrecedesTotal(a: Summary, b: Summary)
    ensures Precedes(a, b) || Precedes(b, a)
  {
    CellLeTotal(a.operator, b.operator);
  }

  lemma PrecedesTransitive(a: Summary, b: Summary, c: Summary)
    requires Precedes(a, b) && Precedes(b, c)
    ensures Precedes(a, c)
  {
    if Weight(a) == Weight(b) == Weight(c) && a.total == b.total == c.total {
      CellLeTransitive(a.operator, b.operator, c.operator);
    }
  }

  predicate Ranked(s: seq<Summary>) {
    forall i, j | 0 <= i < j < |s| :: Precedes(s[i], s[j])
  }

  function Insert(x: Summary, s: seq<Summary>): seq<Summary> {
    if s == [] then [x]
    else if Precedes(x, s[0]) then [x] + s
    else [s[0]] + Insert(x, s[1..])
  }

  /** `sort_values(['排序权重', '总盈亏'], ascending=[False, False])`: a ranked permutation. */
  function RankSummaries(s: seq<Summary>): (r: seq<Summary>)
    ensures Ranked(r)
    ensures multiset(r) == multiset(s)
  {
    if s == [] then []
    else
      var t := RankSummaries(s[1..]);
      RankStep(s, t);
      Insert(s[0], t)
  }

  /** Inserting the first row into the ranked rest ranks the whole. */
  lemma RankStep(s: seq<Summary>, t: seq<Summary>)
    requires s != [] && Ranked(t) && multiset(t) == multiset(s[1..])
    ensures Ranked(Insert(s[0], t))
    ensures multiset(Insert(s[0], t)) == multiset(s)
  {
    InsertRanked(s[0], t);
    InsertPermutes(s[0], t);
    assert s == [s[0]] + s[1..];
  }

  /** Inserting adds exactly one row and keeps the others. */
  lemma {:induction false} InsertMembers(x: Summary, s: seq<Summary>)
    ensures |Insert(x, s)| == |s| + 1
    ensures x in Insert(x, s)
    ensures forall y | y in Insert(x, s) :: y == x || y in s
    ensures forall y | y in s :: y in Insert(x, s)
  {
    if s != [] && !Precedes(x, s[0]) {
      InsertMembers(x, s[1..]);
      assert s == [s[0]] + s[1..];
    }
  }

  lemma {:induction false} InsertPermutes(x: Summary, s: seq<Summary>)
    ensures multiset(Insert(x, s)) == multiset(s) + multiset{x}
  {
    if s != [] && !Precedes(x, s[0]) {
      InsertPermutes(x, s[1..]);
      assert s == [s[0]] + s[1..];
    }
  }

  lemma {:induction false} InsertSums(x: Summary, s: seq<Summary>)
    ensures SumTotal(Insert(x, s)) == SumTotal(s) + x.total
    ensures SumPending(Insert(x, s)) == SumPending(s) + x.pending
    ensures SumOrders(Insert(x, s)) == SumOrders(s) + x.orders
  {
    if s == [] {
      SumsCons(x, []);
    } else if Precedes(x, s[0]) {
      SumsCons(x, s);
    } else {
      InsertSums(x, s[1..]);
      assert s == [s[0]] + s[1..];
      SumsCons(s[0], Insert(x, s[1..]));
      SumsCons(s[0], s[1..]);
    }
  }

  lemma {:induction false} InsertRanked(x: Summary, s: seq<Summary>)
    requires Ranked(s)
    ensures Ranked(Insert(x, s))
  {
    if s == [] {
    } else if Precedes(x, s[0]) {
      forall j | 0 < j < |s| ensures Precedes(x, s[j]) {
        PrecedesTransitive(x, s[0], s[j]);
      }
    } else {
      PrecedesTotal(x, s[0]);
      InsertRanked(x, s[1..]);
      InsertMembers(x, s[1..]);
      var t := Insert(x, s[1..]);
      forall j | 0 <= j < |t| ensures Precedes(s[0], t[j]) {
        assert t[j] in t;
        if t[j] != x {
          var k :| 0 <= k < |s[1..]| && s[1..][k] == t[j];
          assert s[k + 1] == t[j];
        }
      }
      assert Insert(x, s) == [s[0]] + t;
    }
  }

  /** The sums of a sequence with one more row in front. */
  lemma {:induction false} SumsCons(x: Summary, s: seq<Summary>)
    ensures SumTotal([x] + s) == x.total + SumTotal(s)
    ensures SumPending([x] + s) == x.pending + SumPending(s)
    ensures SumOrders([x] + s) == x.orders + SumOrders(s)
  {
    if s != [] {
      var n := |s| - 1;
      assert ([x] + s)[..|s|] == [x] + s[..n];
      SumsCons(x, s[..n]);
    }
  }

  /** Ranking keeps the sums of the 总盈亏, 待确认盈利 and 订单总数 columns. */
  lemma {:induction false} RankCorrect(s: seq<Summary>)
    ensures SumTotal(RankSummaries(s)) == SumTotal(s)
    ensures SumPending(RankSummaries(s)) == SumPending(s)
    ensures SumOrders(RankSummaries(s)) == SumOrders(s)
  {
    if s != [] {
      RankCorrect(s[1..]);
      InsertSums(s[0], RankSummaries(s[1..]));
      assert s == [s[0]] + s[1..];
      SumsCons(s[0], s[1..]);
    }
  }

  function OperatorOf(): Summary -> Cell {
    (y: Summary) => y.operator
  }

  /** No two result rows share an operator. */
  predicate DistinctOperators(s: seq<Summary>) {
    UniqueKeys(s, OperatorOf())
  }

  /** Ranking keeps the length, the rows, and distinct operators distinct. */
  lemma {:induction false} RankMembers(s: seq<Summary>)
    ensures |RankSummaries(s)| == |s|
    ensures forall y | y in RankSummaries(s) :: y in s
    ensures DistinctOperators(s) ==> DistinctOperators(RankSummaries(s))
  {
    if s != [] {
      var t := s[1..];
      assert s == [s[0]] + t;
      RankMembers(t);
      InsertMembers(s[0], RankSummaries(t));
      if DistinctOperators(s) {
        assert DistinctOperators(t);
        forall y | y in RankSummaries(t) ensures y.operator != s[0].operator {
          var k :| 0 <= k < |t| && t[k] == y;
          assert s[k + 1] == y;
        }
        InsertDistinct(s[0], RankSummaries(t));
      }
    }
  }

  lemma {:induction false} InsertDistinct(x: Summary, s: seq<Summary>)
    requires DistinctOperators(s) && forall y | y in s :: y.operator != x.operator
    ensures DistinctOperators(Insert(x, s))
  {
    if s != [] && !Precedes(x, s[0]) {
      var t := s[1..];
      assert s == [s[0]] + t;
      assert DistinctOperators(t);
      InsertDistinct(x, t);
      InsertMembers(x, t);
      forall y | y in Insert(x, t) ensures y.operator != s[0].operator {
        if y != x {
          var k :| 0 <= k < |t| && t[k] == y;
          assert s[k + 1] == y;
        }
      }
      assert Insert(x, s) == [s[0]] + Insert(x, t);
    }
  }

  /** In a ranked result, every row after the sentinel's is a sentinel row as well. */
  lemma SentinelOnlyFollowedBySentinel(s: seq<Summary>, i: nat)
    requires Ranked(s) && i < |s| && s[i].operator == Str(Unassigned)
    ensures forall j | i < j < |s| :: s[j].operator == Str(Unassigned)
  {
    forall j | i < j < |s| ensures s[j].operator == Str(Unassigned) {
      assert Precedes(s[i], s[j]);
    }
  }

  /** In a ranked result whose operators are distinct, the sentinel group, if any, is the last row. */
  lemma UnassignedLast(s: seq<Summary>, i: nat)
    requires Ranked(s) && i < |s| && s[i].operator == Str(Unassigned)
    requires DistinctOperators(s)
    ensures i == |s| - 1
  {
    SentinelOnlyFollowedBySentinel(s, i);
    assert s[|s| - 1].operator == Str(Unassigned);
  }

  /** In a ranked result, the groups with an operator come by 总盈亏 descending. */
  lemma TotalsDescending(s: seq<Summary>, i: nat, j: nat)
    requires Ranked(s) && i < j < |s|
    requires s[i].operator != Str(Unassigned) && s[j].operator != Str(Unassigned)
    ensures s[i].total >= s[j].total
  {
    assert Precedes(s[i], s[j]);
  }

  /** The result table: one ranked row per operator that occurs. */
  function ResultTable(rows: seq<Entry>): (r: seq<Summary>)
    requires OneRowEach(rows)
    ensures forall c | c in Names(rows) :: TallyOf(rows, c).size >= 1
    ensures Ranked(r)
    ensures |r| == |Names(rows)|
    ensures forall y | y in r :: y in SummariesFor(rows, Names(rows))
  {
    GroupsNonEmpty(rows);
    var s := SummariesFor(rows, Names(rows));
    var r := RankSummaries(s);
    assert |r| == |multiset(r)| == |multiset(s)| == |s|;
    assert forall y | y in r :: y in multiset(r);
    r
  }

  /** The grouping, aggregation and sort steps that build `result`. */
  method BuildResult(rows: seq<Entry>) returns (r: seq<Summary>)
    requires OneRowEach(rows)
    ensures r == ResultTable(rows)
  {
    var names, tallies := GroupByOperator(rows);
    GroupsNonEmpty(rows);
    var summaries := seq(|names|, k requires 0 <= k < |names| => Summarise(names[k], tallies[k]));
    assert summaries == SummariesFor(rows, Names(rows));
    r := RankSummaries(summaries);
  }

  /**
   * The 总盈亏 column sums to the per-row 盈亏 total, 待确认盈利 to the
   * per-row 待确认盈利 total, and 订单总数 to the rows with a 商品ID.
   */
  lemma RollupConserves(rows: seq<Entry>)
    requires OneRowEach(rows)
    ensures SumTotal(ResultTable(rows)) == Total(rows).realised
    ensures SumPending(ResultTable(rows)) == Total(rows).pending
    ensures SumOrders(ResultTable(rows)) == Total(rows).ids
  {
    GroupsNonEmpty(rows);
    RankCorrect(SummariesFor(rows, Names(rows)));
    SummariesSum(rows, Names(rows));
    Conservation(rows);
  }

  /** The result rows are the summaries of the groups, one per operator that occurs. */
  lemma RollupRows(rows: seq<Entry>)
    requires OneRowEach(rows)
    ensures forall c | c in Names(rows) :: TallyOf(rows, c).size >= 1
    ensures |ResultTable(rows)| == |Names(rows)|
    ensures DistinctOperators(ResultTable(rows))
    ensures forall y | y in ResultTable(rows) ::
              y.operator in Names(rows) && y == Summarise(y.operator, TallyOf(rows, y.operator))
  {
    GroupsNonEmpty(rows);
    var s := SummariesFor(rows, Names(rows));
    SummariesOfGroups(rows);
    RankMembers(s);
    forall y | y in RankSummaries(s)
      ensures y.operator in Names(rows) && y == Summarise(y.operator, TallyOf(rows, y.operator))
    {
      assert y in s;
    }
  }

  /** Before ranking: one summary per group, operators distinct. */
  lemma SummariesOfGroups(rows: seq<Entry>)
    requires OneRowEach(rows)
    ensures forall c | c in Names(rows) :: TallyOf(rows, c).size >= 1
    ensures DistinctOperators(SummariesFor(rows, Names(rows)))
    ensures forall y | y in SummariesFor(rows, Names(rows)) ::
              y.operator in Names(rows) && y == Summarise(y.operator, TallyOf(rows, y.operator))
  {
    GroupsNonEmpty(rows);
    NamesExactly(rows);
    var s := SummariesFor(rows, Names(rows));
    forall y | y in s ensures y.operator in Names(rows) && y == Summarise(y.operator, TallyOf(rows, y.operator)) {
      var k :| 0 <= k < |s| && s[k] == y;
    }
  }

  /** The result is ranked, and the sentinel's row, if any, is last. */
  lemma RollupOrder(rows: seq<Entry>)
    requires OneRowEach(rows)
    ensures Ranked(ResultTable(rows))
    ensures forall i | 0 <= i < |ResultTable(rows)| && ResultTable(rows)[i].operator == Str(Unassigned) ::
              i == |ResultTable(rows)| - 1
  {
    GroupsNonEmpty(rows);
    RankCorrect(SummariesFor(rows, Names(rows)));
    RollupRows(rows);
    var r := ResultTable(rows);
    forall i | 0 <= i < |r| && r[i].operator == Str(Unassigned) ensures i == |r| - 1 {
      UnassignedLast(r, i);
    }
  }
}
