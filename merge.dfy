/**
 * The two left joins of the reconciliation: orders with operators (on
 * 商品ID, or on 商品ID and 商品编码 when the operator table has a code
 * column), then the result with costs on 商品编码.
 */
module Merge {
  import opened Wrappers
  import opened Tables
  import opened Records
  import opened Join

  /** The key of the operator join: the id alone, or the id and the code. */
  datatype JoinKey = ById(id: Cell) | ByIdAndCode(id: Cell, code: Cell)

  function OrderKey(byCode: bool): OrderRecord -> JoinKey {
    (o: OrderRecord) => if byCode then ByIdAndCode(o.id, o.code) else ById(o.id)
  }

  function OperatorKey(byCode: bool): OperatorRecord -> JoinKey {
    (p: OperatorRecord) => if byCode then ByIdAndCode(p.id, p.code) else ById(p.id)
  }

  /**
   * `fillna('其他')` after the operator join: an order no operator row
   * matched, or matched through a row whose operator is missing, is
   * attributed to the sentinel.
   */
  function FillOperator(m: Option<OperatorRecord>): (c: Cell)
    ensures !c.Missing?
    ensures m.None? ==> c == Str(Unassigned)
    ensures m.Some? && !m.value.operator.Missing? ==> c == m.value.operator
  {
    match m
    case None => Str(Unassigned)
    case Some(p) => if p.operator.Missing? then Str(Unassigned) else p.operator
  }

  /**
   * A merged row's 运费: the left row's when it has one, otherwise the
   * matched row's. At most one table's 运费 survives the merges and the
   * records of the other tables hold missing, so this is that table's cell.
   */
  function CarryShipping(own: Cell, matched: Cell): (c: Cell)
    ensures own.Missing? ==> c == matched
    ensures matched.Missing? ==> c == own
  {
    if own.Missing? then matched else own
  }

  /** The matched operator row's 运费, missing when no operator row matched. */
  function OperatorShipping(m: Option<OperatorRecord>): Cell {
    match m case None => Missing case Some(p) => p.shipping
  }

  /** The matched cost row's 运费, missing when no cost row matched. */
  function CostShipping(m: Option<CostRecord>): Cell {
    match m case None => Missing case Some(c) => c.shipping
  }

  function AssignOperator(o: OrderRecord, m: Option<OperatorRecord>): Assigned {
    Assigned(o, FillOperator(m), CarryShipping(o.shipping, OperatorShipping(m)))
  }

  function AssignedCode(): Assigned -> Cell {
    (a: Assigned) => a.order.code
  }

  function CostCode(): CostRecord -> Cell {
    (c: CostRecord) => c.code
  }

  /** Attaches the matched cost row's 商品成本, missing when no cost row matched. */
  function AttachCost(a: Assigned, m: Option<CostRecord>): Joined {
    Joined(a.order, a.operator, match m case None => Missing case Some(c) => c.cost,
           CarryShipping(a.shipping, CostShipping(m)))
  }

  /**
   * The operator join with the sentinel fill: at least as many rows as
   * orders, and every row has an operator. `AssignOperatorsCover` shows
   * that no order is lost.
   */
  function AssignOperators(orders: seq<OrderRecord>, operators: seq<OperatorRecord>, byCode: bool): (r: seq<Assigned>)
    ensures |r| >= |orders|
    ensures forall a | a in r :: !a.operator.Missing?
  {
    AssignedOperatorsPresent(orders, operators, byCode);
    LeftJoin(orders, operators, OrderKey(byCode), OperatorKey(byCode), AssignOperator)
  }

  /**
   * The cost join: at least as many rows as its input, and each output row
   * keeps an input row's order and operator. `AttachCostsCover` shows that
   * no input row is lost.
   */
  function AttachCosts(rows: seq<Assigned>, costs: seq<CostRecord>): (r: seq<Joined>)
    ensures |r| >= |rows|
    ensures forall j | j in r :: exists a | a in rows :: j.order == a.order && j.operator == a.operator
  {
    AttachCostsFromAssigned(rows, costs);
    LeftJoin(rows, costs, AssignedCode(), CostCode(), AttachCost)
  }

  /** The operator join loses no order: each appears with the first operator row that has its key, filled. */
  lemma AssignOperatorsCover(orders: seq<OrderRecord>, operators: seq<OperatorRecord>, byCode: bool)
    ensures forall i | 0 <= i < |orders| ::
              AssignOperator(orders[i], Lookup(operators, OperatorKey(byCode), OrderKey(byCode)(orders[i])))
              in AssignOperators(orders, operators, byCode)
  {
    LeftJoinCovers(orders, operators, OrderKey(byCode), OperatorKey(byCode), AssignOperator);
  }

  /** The cost join loses no row: each appears with the first cost row that has its code. */
  lemma AttachCostsCover(rows: seq<Assigned>, costs: seq<CostRecord>)
    ensures forall i | 0 <= i < |rows| :: AttachCost(rows[i], Lookup(costs, CostCode(), rows[i].order.code)) in AttachCosts(rows, costs)
  {
    LeftJoinCovers(rows, costs, AssignedCode(), CostCode(), AttachCost);
  }

  /**
   * With operator keys made unique, the operator join keeps every order,
   * once and in order, and gives it the operator of the one row with its
   * key, or the sentinel.
   */
  lemma AssignOperatorsKeepsOrders(orders: seq<OrderRecord>, operators: seq<OperatorRecord>, byCode: bool)
    requires UniqueKeys(operators, OperatorKey(byCode))
    ensures |AssignOperators(orders, operators, byCode)| == |orders|
    ensures forall i | 0 <= i < |orders| ::
      && AssignOperators(orders, operators, byCode)[i].order == orders[i]
      && AssignOperators(orders, operators, byCode)[i].operator
         == FillOperator(Lookup(operators, OperatorKey(byCode), OrderKey(byCode)(orders[i])))
      && AssignOperators(orders, operators, byCode)[i].shipping
         == CarryShipping(orders[i].shipping, OperatorShipping(Lookup(operators, OperatorKey(byCode), OrderKey(byCode)(orders[i]))))
  {
    LeftJoinOfUnique(orders, operators, OrderKey(byCode), OperatorKey(byCode), AssignOperator);
  }

  /** After the operator join no row has a missing operator. */
  lemma {:induction false} AssignedOperatorsPresent(orders: seq<OrderRecord>, operators: seq<OperatorRecord>, byCode: bool)
    ensures forall a | a in LeftJoin(orders, operators, OrderKey(byCode), OperatorKey(byCode), AssignOperator) ::
              !a.operator.Missing?
  {
    if orders != [] {
      var n := |orders| - 1;
      AssignedOperatorsPresent(orders[..n], operators, byCode);
      var tail := JoinRow(orders[n], operators, OrderKey(byCode), OperatorKey(byCode), AssignOperator);
      assert LeftJoin(orders, operators, OrderKey(byCode), OperatorKey(byCode), AssignOperator)
          == LeftJoin(orders[..n], operators, OrderKey(byCode), OperatorKey(byCode), AssignOperator) + tail;
      forall a | a in tail ensures !a.operator.Missing? {
        var m := JoinRowElements(orders[n], operators, OrderKey(byCode), OperatorKey(byCode), AssignOperator, a);
      }
    }
  }

  /**
   * An order is attributed to the sentinel exactly when no operator row has
   * its key, or the row that has it names the sentinel or no one.
   */
  lemma UnassignedExactly(orders: seq<OrderRecord>, operators: seq<OperatorRecord>, byCode: bool, i: nat)
    requires UniqueKeys(operators, OperatorKey(byCode)) && i < |orders|
    ensures |AssignOperators(orders, operators, byCode)| == |orders|
    ensures AssignOperators(orders, operators, byCode)[i].operator == Str(Unassigned) <==>
            || (forall j | 0 <= j < |operators| :: OperatorKey(byCode)(operators[j]) != OrderKey(byCode)(orders[i]))
            || (exists j | 0 <= j < |operators| ::
                  && OperatorKey(byCode)(operators[j]) == OrderKey(byCode)(orders[i])
                  && operators[j].operator in {Missing, Str(Unassigned)})
  {
    AssignOperatorsKeepsOrders(orders, operators, byCode);
    var k := OrderKey(byCode)(orders[i]);
    var m := Lookup(operators, OperatorKey(byCode), k);
    if m.Some? {
      var j :| 0 <= j < |operators| && OperatorKey(byCode)(operators[j]) == k && operators[j] == m.value;
      forall j' | 0 <= j' < |operators| && OperatorKey(byCode)(operators[j']) == k
        ensures operators[j'] == m.value
      {
      }
    }
  }

  /**
   * When matching by id only, the orders' codes play no part in the
   * operator join: with operator keys made unique, giving the orders other
   * codes leaves every order's operator and 运费 as they were.
   */
  lemma IdOnlyIgnoresCode(orders: seq<OrderRecord>, codes: seq<Cell>, operators: seq<OperatorRecord>)
    requires |codes| == |orders| && UniqueKeys(operators, OperatorKey(false))
    ensures var recoded := seq(|orders|, i requires 0 <= i < |orders| => orders[i].(code := codes[i]));
            var before, after := AssignOperators(orders, operators, false), AssignOperators(recoded, operators, false);
            && |after| == |before| == |orders|
            && forall i | 0 <= i < |orders| :: after[i].operator == before[i].operator && after[i].shipping == before[i].shipping
  {
    var recoded := seq(|orders|, i requires 0 <= i < |orders| => orders[i].(code := codes[i]));
    AssignOperatorsKeepsOrders(orders, operators, false);
    AssignOperatorsKeepsOrders(recoded, operators, false);
    assert forall i | 0 <= i < |orders| :: OrderKey(false)(recoded[i]) == OrderKey(false)(orders[i]);
  }

  /**
   * The cost join keeps every row, its order and operator, when cost codes
   * are unique; its cost is the one row's 商品成本, or missing.
   */
  lemma AttachCostsKeepsRows(rows: seq<Assigned>, costs: seq<CostRecord>)
    requires UniqueKeys(costs, CostCode())
    ensures |AttachCosts(rows, costs)| == |rows|
    ensures forall i | 0 <= i < |rows| ::
      && AttachCosts(rows, costs)[i].order == rows[i].order
      && AttachCosts(rows, costs)[i].operator == rows[i].operator
      && AttachCosts(rows, costs)[i].cost
         == (match Lookup(costs, CostCode(), rows[i].order.code) case None => Missing case Some(c) => c.cost)
      && AttachCosts(rows, costs)[i].shipping
         == CarryShipping(rows[i].shipping, CostShipping(Lookup(costs, CostCode(), rows[i].order.code)))
  {
    LeftJoinOfUnique(rows, costs, AssignedCode(), CostCode(), AttachCost);
  }

  /**
   * With unique operator keys and unique cost codes, an order's row after
   * both joins carries its own 运费, else its operator row's, else its cost row's.
   */
  lemma JoinedShipping(orders: seq<OrderRecord>, operators: seq<OperatorRecord>, costs: seq<CostRecord>,
                       byCode: bool, i: nat)
    requires UniqueKeys(operators, OperatorKey(byCode)) && UniqueKeys(costs, CostCode()) && i < |orders|
    ensures var m := AttachCosts(AssignOperators(orders, operators, byCode), costs);
            && |m| == |orders|
            && m[i].shipping
               == CarryShipping(CarryShipping(orders[i].shipping,
                                              OperatorShipping(Lookup(operators, OperatorKey(byCode), OrderKey(byCode)(orders[i])))),
                                CostShipping(Lookup(costs, CostCode(), orders[i].code)))
  {
    AssignOperatorsKeepsOrders(orders, operators, byCode);
    AttachCostsKeepsRows(AssignOperators(orders, operators, byCode), costs);
  }

  /**
   * Whatever the cost table holds, each output row comes from an input row
   * with the same order and operator, and the cost join never drops a row.
   */
  lemma {:induction false} AttachCostsFromAssigned(rows: seq<Assigned>, costs: seq<CostRecord>)
    ensures forall r | r in LeftJoin(rows, costs, AssignedCode(), CostCode(), AttachCost) ::
      exists a | a in rows :: r.order == a.order && r.operator == a.operator
  {
    if rows != [] {
      var n := |rows| - 1;
      AttachCostsFromAssigned(rows[..n], costs);
      var tail := JoinRow(rows[n], costs, AssignedCode(), CostCode(), AttachCost);
      assert LeftJoin(rows, costs, AssignedCode(), CostCode(), AttachCost)
          == LeftJoin(rows[..n], costs, AssignedCode(), CostCode(), AttachCost) + tail;
      forall r | r in LeftJoin(rows, costs, AssignedCode(), CostCode(), AttachCost)
        ensures exists a | a in rows :: r.order == a.order && r.operator == a.operator
      {
        if r in tail {
          var m := JoinRowElements(rows[n], costs, AssignedCode(), CostCode(), AttachCost, r);
          assert rows[n] in rows;
        } else {
          var a :| a in rows[..n] && r.order == a.order && r.operator == a.operator;
          assert a in rows;
        }
      }
    }
  }
}
