/**
 * The rows of the three tables after their columns are renamed to the
 * canonical names, and the rows the two left joins produce.
 */
module Records {
  import opened Tables

  /** The sentinel operator for orders no operator row claims: `'其他'`. */
  const Unassigned: string := "其他"

  /**
   * One order: 商品ID, 商品编码, 订单状态, 实收金额, 商品数量 (already
   * numeric) and 运费, the last missing unless the orders table is the one
   * whose 运费 reaches the merged rows.
   */
  datatype OrderRecord = OrderRecord(id: Cell, code: Cell, status: Cell, amount: Cell,
                                     quantity: real, shipping: Cell)

  /**
   * One row of the operator table: 商品ID, 商品编码 (missing when the table
   * has none), 运营人员, and 运费 when this table's 运费 reaches the merged rows.
   */
  datatype OperatorRecord = OperatorRecord(id: Cell, code: Cell, operator: Cell, shipping: Cell)

  /** One row of the cost table: 商品编码, 商品成本, and 运费 as for the other tables. */
  datatype CostRecord = CostRecord(code: Cell, cost: Cell, shipping: Cell)

  /** An order after the operator join, its operator already filled with the sentinel. */
  datatype Assigned = Assigned(order: OrderRecord, operator: Cell, shipping: Cell)

  /**
   * An order after both joins; `cost` is missing when no cost row matched,
   * and `shipping` is the merged row's 运费.
   */
  datatype Joined = Joined(order: OrderRecord, operator: Cell, cost: Cell, shipping: Cell)
}
