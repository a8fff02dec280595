/**
 * `OrderAnalysisApp.analyze_data`: the whole reconciliation, from the three
 * loaded tables to the ranked per-operator result, and the application
 * object whose fields hold the tables and the last result.
 */
module Analysis {
  import opened Wrappers
  import opened Tables
  import opened Records
  import opened Join
  import opened Schema
  import opened Merge
  import opened Profit
  import opened Rollup

  datatype Failure =
    | NotLoaded
      /** Some required column is missing; the message lists them and every table's headers. */
    | SchemaError(missing: seq<string>, orderColumns: seq<string>, operatorColumns: seq<string>,
                  costColumns: seq<string>)
      /** The resolved quantity column and `商品数量` both exist, and numeric conversion fails. */
    | QuantityColumnClash
      /**
       * No row reached the profit step: `apply` over an empty table returns
       * the table itself, and assigning it to the two profit columns fails.
       */
    | EmptyMerge

  datatype Report = Report(
    byCode: bool,                     // the operator join uses 商品ID and 商品编码
    quantityColumn: Option<string>,   // the quantity header used, if any
    duplicateCount: nat,              // operator rows in a duplicated key group
    inflated: bool,                   // the operator join produced more rows than orders
    merged: seq<Joined>,
    summaries: seq<Summary>,
    unassignedCount: nat,             // merged rows attributed to '其他'
    missingCostCount: nat)            // merged rows with no 商品成本

  function UnassignedRows(rows: seq<Joined>): nat {
    if rows == [] then 0
    else UnassignedRows(rows[..|rows| - 1]) + Indicator(rows[|rows| - 1].operator == Str(Unassigned))
  }

  function MissingCostRows(rows: seq<Joined>): nat {
    if rows == [] then 0
    else MissingCostRows(rows[..|rows| - 1]) + Indicator(rows[|rows| - 1].cost.Missing?)
  }

  /**
   * The operator rows the join uses: first row per key, when some key
   * repeats. They have unique keys, the same keys as the table, and are the
   * table itself when its keys are already unique.
   */
  function KeptOperators(ops: seq<OperatorRecord>, byCode: bool): (kept: seq<OperatorRecord>)
    ensures UniqueKeys(kept, OperatorKey(byCode))
    ensures KeySet(kept, OperatorKey(byCode)) == KeySet(ops, OperatorKey(byCode))
    ensures UniqueKeys(ops, OperatorKey(byCode)) ==> kept == ops
    ensures forall x | x in kept :: x in ops
  {
    var key := OperatorKey(byCode);
    DuplicatedCountZero(ops, key);
    KeepFirstUnique(ops, key);
    KeepFirstKeys(ops, key);
    if DuplicatedCount(ops, key) > 0 then KeepFirst(ops, key) else ops
  }

  /** The reference outcome of one analysis of the three tables. */
  function Outcome(orders: Table, operators: Table, costs: Table): Result<Report, Failure> {
    var r := Resolve(orders.columns, operators.columns, costs.columns);
    if !Complete(r) then
      Err(SchemaError(MissingMessages(r), orders.columns, operators.columns, costs.columns))
    else if QuantityClash(r, orders.columns) then
      Err(QuantityColumnClash)
    else
      Reconcile(orders, operators, costs, r)
  }

  /** The steps after the schema checks: both joins, the profit columns and the ranked result. */
  function Reconcile(orders: Table, operators: Table, costs: Table, r: Resolution): Result<Report, Failure>
    requires Complete(r)
  {
    var byCode := r.operatorCode.Some?;
    var ords := OrderRecords(orders, r);
    var ops := OperatorRecords(operators, r);
    var joined := AssignOperators(ords, KeptOperators(ops, byCode), byCode);
    var merged := AttachCosts(joined, CostRecords(costs, r));
    if merged == [] then
      Err(EmptyMerge)
    else
      Ok(Report(byCode, r.quantity, DuplicatedCount(ops, OperatorKey(byCode)), |joined| > |ords|,
                merged, ResultTable(Entries(merged)), UnassignedRows(merged), MissingCostRows(merged)))
  }

  /**
   * What any outcome looks like: a schema error names at least one column;
   * a success has at least as many merged rows as orders, and a ranked
   * result. `MergedRowsCover` shows that no order is lost.
   */
  lemma OutcomeShape(orders: Table, operators: Table, costs: Table)
    ensures var o := Outcome(orders, operators, costs);
            && (o.Err? && o.error.SchemaError? ==> o.error.missing != [])
            && (o.Ok? ==> orders.rows != [] && |o.value.merged| >= |orders.rows|)
            && (o.Ok? ==> Ranked(o.value.summaries))
  {
    var r := Resolve(orders.columns, operators.columns, costs.columns);
    MissingMessagesExactly(r);
    if Complete(r) && !QuantityClash(r, orders.columns) {
      var byCode := r.operatorCode.Some?;
      var ords := OrderRecords(orders, r);
      var joined := AssignOperators(ords, KeptOperators(OperatorRecords(operators, r), byCode), byCode);
      var merged := AttachCosts(joined, CostRecords(costs, r));
      assert ords == [] ==> joined == [];
    }
  }

  /** `analyze_data` once the three tables are loaded, step by step. */
  method Analyze(orders: Table, operators: Table, costs: Table) returns (out: Result<Report, Failure>)
    ensures out == Outcome(orders, operators, costs)
  {
    var r := Resolve(orders.columns, operators.columns, costs.columns);
    var missing := CollectMissing(r);
    MissingMessagesExactly(r);
    if missing != [] {
      return Err(SchemaError(missing, orders.columns, operators.columns, costs.columns));
    }
    if QuantityClash(r, orders.columns) {
      return Err(QuantityColumnClash);
    }
    out := ReconcileTables(orders, operators, costs, r);
  }

  /** The merge, profit and grouping steps of `analyze_data`. */
  method ReconcileTables(orders: Table, operators: Table, costs: Table, r: Resolution)
    returns (out: Result<Report, Failure>)
    requires Complete(r)
    ensures out == Reconcile(orders, operators, costs, r)
  {
    var byCode := r.operatorCode.Some?;
    var ords := OrderRecords(orders, r);
    var ops := OperatorRecords(operators, r);
    var key := OperatorKey(byCode);
    var duplicates := CountDuplicated(ops, key);
    var kept := ops;
    if duplicates > 0 {
      kept := DropDuplicates(ops, key);
    }
    assert kept == KeptOperators(ops, byCode);
    var joined := LeftJoinRows(ords, kept, OrderKey(byCode), key, AssignOperator);
    assert joined == AssignOperators(ords, kept, byCode);
    var inflated := |joined| > |ords|;
    var merged := LeftJoinRows(joined, CostRecords(costs, r), AssignedCode(), CostCode(), AttachCost);
    assert merged == AttachCosts(joined, CostRecords(costs, r));
    if merged == [] {
      return Err(EmptyMerge);
    }
    var summaries := BuildResult(Entries(merged));
    out := Ok(Report(byCode, r.quantity, duplicates, inflated, merged, summaries,
                     UnassignedRows(merged), MissingCostRows(merged)));
  }

  /**
   * The analysis stops with a schema error exactly when a required column is
   * missing, and names each; with every column found it fails only on the
   * quantity-column clash.
   */
  lemma SchemaErrorExactly(orders: Table, operators: Table, costs: Table)
    ensures var r := Resolve(orders.columns, operators.columns, costs.columns);
            && (Outcome(orders, operators, costs).Err? && Outcome(orders, operators, costs).error.SchemaError?
                <==> !Complete(r))
            && (!Complete(r) ==> Outcome(orders, operators, costs).error.missing == MissingMessages(r)
                                 && MissingMessages(r) != [])
            && (Complete(r) && QuantityClash(r, orders.columns) <==>
                Outcome(orders, operators, costs) == Err(QuantityColumnClash))
            && (Complete(r) && !QuantityClash(r, orders.columns) && orders.rows == [] <==>
                Outcome(orders, operators, costs) == Err(EmptyMerge))
            && (Outcome(orders, operators, costs).Ok? <==>
                Complete(r) && !QuantityClash(r, orders.columns) && orders.rows != [])
  {
    var r := Resolve(orders.columns, operators.columns, costs.columns);
    MissingMessagesExactly(r);
    if Complete(r) {
      ReconcileFails(orders, operators, costs, r);
    }
  }

  /** After the schema checks the analysis fails only on an empty merge, which is an empty order table. */
  lemma ReconcileFails(orders: Table, operators: Table, costs: Table, r: Resolution)
    requires Complete(r)
    ensures Reconcile(orders, operators, costs, r).Err? <==> orders.rows == []
    ensures Reconcile(orders, operators, costs, r).Err? ==> Reconcile(orders, operators, costs, r).error == EmptyMerge
  {
    var byCode := r.operatorCode.Some?;
    var ords := OrderRecords(orders, r);
    var joined := AssignOperators(ords, KeptOperators(OperatorRecords(operators, r), byCode), byCode);
    assert |AttachCosts(joined, CostRecords(costs, r))| >= |joined| >= |ords| == |orders.rows|;
  }

  /** Operator rows in duplicated groups are at least the rows de-duplication discards, and none means unique keys. */
  lemma DuplicateWarning(orders: Table, operators: Table, costs: Table)
    requires Complete(Resolve(orders.columns, operators.columns, costs.columns))
    requires !QuantityClash(Resolve(orders.columns, operators.columns, costs.columns), orders.columns)
    requires orders.rows != []
    ensures Outcome(orders, operators, costs).Ok?
    ensures var rep := Outcome(orders, operators, costs).value;
            var r := Resolve(orders.columns, operators.columns, costs.columns);
            var ops := OperatorRecords(operators, r);
            && rep.duplicateCount >= |ops| - |KeptOperators(ops, rep.byCode)|
            && (rep.duplicateCount == 0 <==> UniqueKeys(ops, OperatorKey(rep.byCode)))
            && UniqueKeys(KeptOperators(ops, rep.byCode), OperatorKey(rep.byCode))
  {
    var r := Resolve(orders.columns, operators.columns, costs.columns);
    var ops := OperatorRecords(operators, r);
    var byCode := r.operatorCode.Some?;
    DuplicatedCountBound(ops, OperatorKey(byCode));
    DuplicatedCountZero(ops, OperatorKey(byCode));
    KeepFirstUnique(ops, OperatorKey(byCode));
  }

  /**
   * After de-duplication the operator join keeps every order once, so the
   * inflation warning never fires, and no merged row lacks an operator.
   */
  lemma OperatorJoinPreservesOrders(orders: Table, operators: Table, costs: Table)
    requires Complete(Resolve(orders.columns, operators.columns, costs.columns))
    requires !QuantityClash(Resolve(orders.columns, operators.columns, costs.columns), orders.columns)
    requires orders.rows != []
    ensures Outcome(orders, operators, costs).Ok?
    ensures !Outcome(orders, operators, costs).value.inflated
    ensures forall j | j in Outcome(orders, operators, costs).value.merged :: !j.operator.Missing?
  {
    var r := Resolve(orders.columns, operators.columns, costs.columns);
    var ops := OperatorRecords(operators, r);
    var byCode := r.operatorCode.Some?;
    var ords := OrderRecords(orders, r);
    DuplicatedCountZero(ops, OperatorKey(byCode));
    KeepFirstUnique(ops, OperatorKey(byCode));
    AssignOperatorsKeepsOrders(ords, KeptOperators(ops, byCode), byCode);
    var joined := AssignOperators(ords, KeptOperators(ops, byCode), byCode);
    AssignedOperatorsPresent(ords, KeptOperators(ops, byCode), byCode);
    AttachCostsFromAssigned(joined, CostRecords(costs, r));
  }

  /** Unfolds a successful outcome: the merged rows are the two joins over the kept operator rows. */
  lemma OutcomeMerged(orders: Table, operators: Table, costs: Table)
    requires Complete(Resolve(orders.columns, operators.columns, costs.columns))
    requires !QuantityClash(Resolve(orders.columns, operators.columns, costs.columns), orders.columns)
    requires orders.rows != []
    ensures Outcome(orders, operators, costs).Ok?
    ensures var r := Resolve(orders.columns, operators.columns, costs.columns);
            var byCode := r.operatorCode.Some?;
            var joined := AssignOperators(OrderRecords(orders, r),
                                          KeptOperators(OperatorRecords(operators, r), byCode), byCode);
            && Complete(r)
            && Outcome(orders, operators, costs).value.merged == AttachCosts(joined, CostRecords(costs, r))
            && |joined| == |orders.rows|
            && forall i | 0 <= i < |orders.rows| :: joined[i].order == OrderRecords(orders, r)[i]
  {
    var r := Resolve(orders.columns, operators.columns, costs.columns);
    var ops := OperatorRecords(operators, r);
    var byCode := r.operatorCode.Some?;
    DuplicatedCountZero(ops, OperatorKey(byCode));
    KeepFirstUnique(ops, OperatorKey(byCode));
    AssignOperatorsKeepsOrders(OrderRecords(orders, r), KeptOperators(ops, byCode), byCode);
  }

  /**
   * Every order's record is the order of some merged row, so the merge
   * never drops an order; with unique cost codes the merged rows are
   * exactly the orders, in order.
   */
  lemma MergedRowsCover(orders: Table, operators: Table, costs: Table)
    requires Complete(Resolve(orders.columns, operators.columns, costs.columns))
    requires !QuantityClash(Resolve(orders.columns, operators.columns, costs.columns), orders.columns)
    requires orders.rows != []
    ensures Outcome(orders, operators, costs).Ok?
    ensures |Outcome(orders, operators, costs).value.merged| >= |orders.rows|
    ensures var r := Resolve(orders.columns, operators.columns, costs.columns);
            Complete(r) && forall i | 0 <= i < |orders.rows| ::
              exists j | j in Outcome(orders, operators, costs).value.merged :: j.order == OrderRecords(orders, r)[i]
    ensures var r := Resolve(orders.columns, operators.columns, costs.columns);
            UniqueKeys(CostRecords(costs, r), CostCode()) ==>
              && |Outcome(orders, operators, costs).value.merged| == |orders.rows|
              && forall i | 0 <= i < |orders.rows| ::
                   Outcome(orders, operators, costs).value.merged[i].order == OrderRecords(orders, r)[i]
  {
    OutcomeMerged(orders, operators, costs);
    var r := Resolve(orders.columns, operators.columns, costs.columns);
    var byCode := r.operatorCode.Some?;
    var joined := AssignOperators(OrderRecords(orders, r), KeptOperators(OperatorRecords(operators, r), byCode), byCode);
    AttachCostsFromAssigned(joined, CostRecords(costs, r));
    AttachCostsCover(joined, CostRecords(costs, r));
    forall i | 0 <= i < |orders.rows|
      ensures exists j | j in Outcome(orders, operators, costs).value.merged :: j.order == OrderRecords(orders, r)[i]
    {
      var a := joined[i];
      assert AttachCost(a, Lookup(CostRecords(costs, r), CostCode(), a.order.code)) in Outcome(orders, operators, costs).value.merged;
    }
    if UniqueKeys(CostRecords(costs, r), CostCode()) {
      AttachCostsKeepsRows(joined, CostRecords(costs, r));
    }
  }

  /** The 运费 the merged row of an order carries, by the table `FeeSourceOf` names. */
  function MergedFee(r: Resolution, order: Row, p: Option<OperatorRecord>, c: Option<CostRecord>): Cell {
    match r.shipping
    case NoFee => Missing
    case OrderFee => Get(order, ShippingColumn)
    case OperatorFee => OperatorShipping(p)
    case CostFee => CostShipping(c)
  }

  /**
   * Carrying 运费 through the two joins picks the named table's cell, since
   * the records of the other tables hold none.
   */
  lemma CarriedFee(orders: Table, operators: Table, costs: Table, r: Resolution, i: nat,
                   p: Option<OperatorRecord>, c: Option<CostRecord>)
    requires Complete(r) && i < |orders.rows|
    requires p.Some? ==> p.value in OperatorRecords(operators, r)
    requires c.Some? ==> c.value in CostRecords(costs, r)
    ensures CarryShipping(CarryShipping(OrderRecords(orders, r)[i].shipping, OperatorShipping(p)), CostShipping(c))
            == MergedFee(r, orders.rows[i], p, c)
  {
    FeesOfOtherTables(orders, operators, costs, r);
  }

  /**
   * With unique cost codes, each order's merged row carries the 运费 of the
   * one table whose 运费 keeps its name through both merges: the order's
   * own, its operator row's or its cost row's, and none when no table's does.
   */
  lemma MergedShipping(orders: Table, operators: Table, costs: Table, i: nat)
    requires Complete(Resolve(orders.columns, operators.columns, costs.columns))
    requires !QuantityClash(Resolve(orders.columns, operators.columns, costs.columns), orders.columns)
    requires i < |orders.rows|
    requires UniqueKeys(CostRecords(costs, Resolve(orders.columns, operators.columns, costs.columns)), CostCode())
    ensures Outcome(orders, operators, costs).Ok?
    ensures var r := Resolve(orders.columns, operators.columns, costs.columns);
            var byCode := r.operatorCode.Some?;
            var o := OrderRecords(orders, r)[i];
            var m := Outcome(orders, operators, costs).value.merged;
            && |m| == |orders.rows|
            && m[i].shipping == MergedFee(r, orders.rows[i],
                                          Lookup(KeptOperators(OperatorRecords(operators, r), byCode),
                                                 OperatorKey(byCode), OrderKey(byCode)(o)),
                                          Lookup(CostRecords(costs, r), CostCode(), o.code))
  {
    OutcomeMerged(orders, operators, costs);
    var r := Resolve(orders.columns, operators.columns, costs.columns);
    var byCode := r.operatorCode.Some?;
    var ords, ops, cs := OrderRecords(orders, r), OperatorRecords(operators, r), CostRecords(costs, r);
    var kept := KeptOperators(ops, byCode);
    JoinedShipping(ords, kept, cs, byCode, i);
    var p := Lookup(kept, OperatorKey(byCode), OrderKey(byCode)(ords[i]));
    var c := Lookup(cs, CostCode(), ords[i].code);
    assert p.Some? ==> p.value in kept;
    assert c.Some? ==> c.value in cs;
    CarriedFee(orders, operators, costs, r, i, p, c);
  }

  /**
   * The result's 总盈亏, 待确认盈利 and 订单总数 columns add up to the
   * per-row totals over the merged rows; the result is ranked, one row per
   * operator, the sentinel's last.
   */
  lemma ResultConservesAndRanks(orders: Table, operators: Table, costs: Table)
    requires Complete(Resolve(orders.columns, operators.columns, costs.columns))
    requires !QuantityClash(Resolve(orders.columns, operators.columns, costs.columns), orders.columns)
    requires orders.rows != []
    ensures Outcome(orders, operators, costs).Ok?
    ensures var rep := Outcome(orders, operators, costs).value;
            && SumTotal(rep.summaries) == Total(Entries(rep.merged)).realised
            && SumPending(rep.summaries) == Total(Entries(rep.merged)).pending
            && SumOrders(rep.summaries) == Total(Entries(rep.merged)).ids
            && Ranked(rep.summaries)
            && DistinctOperators(rep.summaries)
            && forall i | 0 <= i < |rep.summaries| && rep.summaries[i].operator == Str(Unassigned) ::
                 i == |rep.summaries| - 1
  {
    var es := Entries(Outcome(orders, operators, costs).value.merged);
    RollupConserves(es);
    RollupRows(es);
    RollupOrder(es);
  }

  /** The application object: the three loaded tables and the last result. */
  class OrderAnalysisApp {
    var orders: Option<Table>
    var operators: Option<Table>
    var costs: Option<Table>
    var result: Option<seq<Summary>>

    constructor ()
      ensures orders.None? && operators.None? && costs.None? && result.None?
    {
      orders := None;
      operators := None;
      costs := None;
      result := None;
    }

    predicate Loaded()
      reads this
    {
      orders.Some? && operators.Some? && costs.Some?
    }

    /**
     * Runs the analysis over the loaded tables; the result is replaced only
     * when the analysis succeeds.
     */
    method AnalyzeData() returns (out: Result<Report, Failure>)
      modifies this
      ensures orders == old(orders) && operators == old(operators) && costs == old(costs)
      ensures !old(Loaded()) ==> out == Err(NotLoaded)
      ensures old(Loaded()) ==> out == Outcome(orders.value, operators.value, costs.value)
      ensures result == if out.Ok? then Some(out.value.summaries) else old(result)
    {
      if !Loaded() {
        return Err(NotLoaded);
      }
      out := Analyze(orders.value, operators.value, costs.value);
      Keep(out);
    }

    /** Stores the ranked result of a successful analysis; a failure leaves the last one. */
    method Keep(out: Result<Report, Failure>)
      modifies this
      ensures orders == old(orders) && operators == old(operators) && costs == old(costs)
      ensures result == if out.Ok? then Some(out.value.summaries) else old(result)
    {
      if out.Ok? {
        result := Some(out.value.summaries);
      }
    }
  }
}
