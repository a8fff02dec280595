/**
 * Column resolution, the required-column check, and the renaming that turns
 * the rows of each table into records under the canonical column names.
 */
module Schema {
  import opened Wrappers
  import opened Tables
  import opened Records
  import opened Join

  // The aliases tried for each logical field, in priority order, duplicates included.
  const IdAliases: seq<string> := ["商品ID", "商品id", "产品ID", "产品id", "商品编号"]
  const CodeAliases: seq<string> := ["商品编码", "商品编码", "产品编码", "产品编码", "SKU"]
  const StatusAliases: seq<string> := ["订单状态", "状态", "订单状态", "状态"]
  const AmountAliases: seq<string> := ["实收金额", "金额", "实收", "收入"]
  const QuantityAliases: seq<string> := ["商品数量(件)", "商品数量", "数量", "数量(件)", "件数"]
  const OperatorAliases: seq<string> := ["运营人员", "运营", "负责人", "运营人员", "负责人"]
  const CostAliases: seq<string> := ["商品成本", "成本", "商品成本", "成本价"]

  /** The canonical quantity column the resolved one is renamed to. */
  const QuantityColumn: string := "商品数量"
  /** The optional shipping-fee column the returned branch reads. */
  const ShippingColumn: string := "运费"

  // One message per unresolved required field, in the order they are checked.
  const MissingOrderId: string := "订单表中缺少商品ID列"
  const MissingOrderCode: string := "订单表中缺少商品编码列"
  const MissingStatus: string := "订单表中缺少订单状态列"
  const MissingAmount: string := "订单表中缺少实收金额列"
  const MissingOperatorId: string := "运营对照表中缺少商品ID列"
  const MissingOperatorName: string := "运营对照表中缺少运营人员列"
  const MissingCostCode: string := "成本对照表中缺少商品编码列"
  const MissingCost: string := "成本对照表中缺少商品成本列"

  const AllMessages: seq<string> := [MissingOrderId, MissingOrderCode, MissingStatus, MissingAmount,
                                     MissingOperatorId, MissingOperatorName, MissingCostCode, MissingCost]

  /** The header each logical field resolved to, or `None`, and the table whose 运费 the merged rows carry. */
  datatype Resolution = Resolution(
    orderId: Option<string>, orderCode: Option<string>, status: Option<string>,
    amount: Option<string>, quantity: Option<string>,
    operatorId: Option<string>, operatorCode: Option<string>, operatorName: Option<string>,
    costCode: Option<string>, cost: Option<string>, shipping: FeeSource)

  /** `o` is a header of `columns` taken from `aliases`, and is `None` only when no alias is a header. */
  predicate FoundIn(o: Option<string>, columns: seq<string>, aliases: seq<string>) {
    && (o.None? <==> forall i | 0 <= i < |aliases| :: aliases[i] !in columns)
    && (o.Some? ==> o.value in columns && o.value in aliases)
  }

  /** Each field is looked up in its own table, under its own aliases. */
  function Resolve(orders: seq<string>, operators: seq<string>, costs: seq<string>): Resolution {
    Resolution(
      FindColumn(orders, IdAliases), FindColumn(orders, CodeAliases), FindColumn(orders, StatusAliases),
      FindColumn(orders, AmountAliases), FindColumn(orders, QuantityAliases),
      FindColumn(operators, IdAliases), FindColumn(operators, CodeAliases), FindColumn(operators, OperatorAliases),
      FindColumn(costs, CodeAliases), FindColumn(costs, CostAliases),
      FeeSourceOf(orders, operators, costs))
  }

  /**
   * Every field resolves to a header of its own table taken from its own
   * aliases, and to `None` only when none of its aliases is a header.
   */
  lemma ResolveFinds(orders: seq<string>, operators: seq<string>, costs: seq<string>)
    ensures var r := Resolve(orders, operators, costs);
            && FoundIn(r.orderId, orders, IdAliases) && FoundIn(r.orderCode, orders, CodeAliases)
            && FoundIn(r.status, orders, StatusAliases) && FoundIn(r.amount, orders, AmountAliases)
            && FoundIn(r.quantity, orders, QuantityAliases)
            && FoundIn(r.operatorId, operators, IdAliases) && FoundIn(r.operatorCode, operators, CodeAliases)
            && FoundIn(r.operatorName, operators, OperatorAliases)
            && FoundIn(r.costCode, costs, CodeAliases) && FoundIn(r.cost, costs, CostAliases)
  {
  }

  // ---------------------------------------------------------------------
  // Which table's 运费 reaches the merged rows
  // ---------------------------------------------------------------------

  /** The table whose 运费 column the merged rows carry, if any. */
  datatype FeeSource = NoFee | OrderFee | OperatorFee | CostFee

  /**
   * The table whose 运费 keeps its name through both merges. 运费 is never
   * a merge key, so when both sides of a merge have it each copy is
   * suffixed and neither is read: 运费 in the orders and the operator
   * table leaves none after the first merge, and a cost table's 运费 then
   * arrives under its own name.
   */
  function FeeSourceOf(orders: seq<string>, operators: seq<string>, costs: seq<string>): FeeSource {
    var o, p, c := ShippingColumn in orders, ShippingColumn in operators, ShippingColumn in costs;
    if o && !p && !c then OrderFee
    else if p && !o && !c then OperatorFee
    else if c && o == p then CostFee
    else NoFee
  }

  /** The name `pd.merge` gives a column of one side: a non-key column the other side also has takes that side's suffix. */
  function MergedName(name: string, other: seq<string>, keys: seq<string>, suffix: string): string {
    if name in other && name !in keys then name + suffix else name
  }

  /** The right side's columns in a merge's output: its columns other than the keys, suffixed `_y` where the left has them too. */
  function RightHeaders(right: seq<string>, left: seq<string>, keys: seq<string>): seq<string> {
    if right == [] then []
    else Kept(right[0] in keys, MergedName(right[0], left, keys, "_y")) + RightHeaders(right[1..], left, keys)
  }

  /** The headers of `pd.merge(left, right, on=keys)`: the left columns, suffixed `_x` where shared, then the right ones. */
  function MergedHeaders(left: seq<string>, right: seq<string>, keys: seq<string>): seq<string> {
    seq(|left|, i requires 0 <= i < |left| => MergedName(left[i], right, keys, "_x")) + RightHeaders(right, left, keys)
  }

  /** A suffixed name is never 运费. */
  lemma SuffixedIsNotShipping(name: string, suffix: string)
    requires suffix == "_x" || suffix == "_y"
    ensures name + suffix != ShippingColumn
  {
    if |name + suffix| == |ShippingColumn| {
      assert (name + suffix)[0] == '_' != ShippingColumn[0];
    }
  }

  lemma {:induction false} RightHeadersShipping(right: seq<string>, left: seq<string>, keys: seq<string>)
    requires ShippingColumn !in keys
    ensures ShippingColumn in RightHeaders(right, left, keys) <==> ShippingColumn in right && ShippingColumn !in left
  {
    if right != [] {
      RightHeadersShipping(right[1..], left, keys);
      if right[0] in left && right[0] !in keys {
        SuffixedIsNotShipping(right[0], "_y");
      }
      assert right == [right[0]] + right[1..];
    }
  }

  /** After one merge 运费 is a header exactly when one side, and not both, has it. */
  lemma ShippingAfterMerge(left: seq<string>, right: seq<string>, keys: seq<string>)
    requires ShippingColumn !in keys
    ensures ShippingColumn in MergedHeaders(left, right, keys) <==> (ShippingColumn in left) != (ShippingColumn in right)
  {
    RightHeadersShipping(right, left, keys);
    var l := seq(|left|, i requires 0 <= i < |left| => MergedName(left[i], right, keys, "_x"));
    assert MergedHeaders(left, right, keys) == l + RightHeaders(right, left, keys);
    forall i | 0 <= i < |left|
      ensures l[i] == ShippingColumn <==> left[i] == ShippingColumn && ShippingColumn !in right
    {
      if left[i] in right && left[i] !in keys {
        SuffixedIsNotShipping(left[i], "_x");
      }
    }
    if ShippingColumn in left && ShippingColumn !in right {
      var i :| 0 <= i < |left| && left[i] == ShippingColumn;
      assert l[i] == ShippingColumn;
    }
  }

  /**
   * The table `FeeSourceOf` names is the one whose 运费 keeps its name
   * through the operator merge (on `k1`) and the cost merge (on `k2`), and
   * there is a 运费 column after both merges exactly when some table is named.
   */
  lemma FeeSourceExactly(orders: seq<string>, operators: seq<string>, costs: seq<string>,
                         k1: seq<string>, k2: seq<string>)
    requires ShippingColumn !in k1 && ShippingColumn !in k2
    ensures var first, s := MergedHeaders(orders, operators, k1), FeeSourceOf(orders, operators, costs);
            && (s != NoFee <==> ShippingColumn in MergedHeaders(first, costs, k2))
            && (s == OrderFee <==> ShippingColumn in orders
                                   && MergedName(ShippingColumn, operators, k1, "_x") == ShippingColumn
                                   && MergedName(ShippingColumn, costs, k2, "_x") == ShippingColumn)
            && (s == OperatorFee <==> ShippingColumn in operators
                                      && MergedName(ShippingColumn, orders, k1, "_y") == ShippingColumn
                                      && MergedName(ShippingColumn, costs, k2, "_x") == ShippingColumn)
            && (s == CostFee <==> ShippingColumn in costs
                                  && MergedName(ShippingColumn, first, k2, "_y") == ShippingColumn)
  {
    var first := MergedHeaders(orders, operators, k1);
    ShippingAfterMerge(orders, operators, k1);
    ShippingAfterMerge(first, costs, k2);
    assert |ShippingColumn + "_x"| != |ShippingColumn| && |ShippingColumn + "_y"| != |ShippingColumn|;
  }

  /** Whether each required field resolved, in the order `AllMessages` names them. */
  function Resolved(r: Resolution): seq<bool> {
    [r.orderId.Some?, r.orderCode.Some?, r.status.Some?, r.amount.Some?,
     r.operatorId.Some?, r.operatorName.Some?, r.costCode.Some?, r.cost.Some?]
  }

  /** The message of one field when it did not resolve. */
  function Kept(found: bool, message: string): seq<string> {
    if found then [] else [message]
  }

  /** Keeps `msgs[i]` for every `i` whose flag is false, in order. */
  function Unresolved(flags: seq<bool>, msgs: seq<string>): seq<string>
    requires |flags| == |msgs|
  {
    if flags == [] then []
    else Unresolved(flags[..|flags| - 1], msgs[..|msgs| - 1]) + Kept(flags[|flags| - 1], msgs[|msgs| - 1])
  }


  /** A message is kept exactly when its flag is false, provided the messages are distinct. */
  lemma {:induction false} UnresolvedKeeps(flags: seq<bool>, msgs: seq<string>)
    requires |flags| == |msgs| && Distinct(msgs)
    ensures forall i | 0 <= i < |msgs| :: msgs[i] in Unresolved(flags, msgs) <==> !flags[i]
  {
    if flags != [] {
      var n := |flags| - 1;
      assert Distinct(msgs[..n]);
      UnresolvedKeeps(flags[..n], msgs[..n]);
      UnresolvedMembers(flags[..n], msgs[..n]);
      forall i | 0 <= i < |msgs|
        ensures msgs[i] in Unresolved(flags, msgs) <==> !flags[i]
      {
        if i < n {
          assert msgs[..n][i] == msgs[i];
          assert msgs[i] != msgs[n];
        } else {
          assert msgs[n] !in msgs[..n];
        }
      }
    }
  }

  /** Only the given messages are kept. */
  lemma {:induction false} UnresolvedMembers(flags: seq<bool>, msgs: seq<string>)
    requires |flags| == |msgs|
    ensures forall m | m in Unresolved(flags, msgs) :: m in msgs
  {
    if flags != [] {
      var n := |flags| - 1;
      UnresolvedMembers(flags[..n], msgs[..n]);
      assert forall m | m in msgs[..n] :: m in msgs;
    }
  }

  /** Distinct messages are kept at most once each. */
  lemma {:induction false} UnresolvedDistinct(flags: seq<bool>, msgs: seq<string>)
    requires |flags| == |msgs| && Distinct(msgs)
    ensures Distinct(Unresolved(flags, msgs))
  {
    if flags != [] {
      var n := |flags| - 1;
      assert Distinct(msgs[..n]);
      UnresolvedDistinct(flags[..n], msgs[..n]);
      UnresolvedMembers(flags[..n], msgs[..n]);
      assert msgs[n] !in msgs[..n];
    }
  }

  /** Nothing is kept exactly when every flag is set. */
  lemma {:induction false} UnresolvedEmpty(flags: seq<bool>, msgs: seq<string>)
    requires |flags| == |msgs|
    ensures Unresolved(flags, msgs) == [] <==> forall i | 0 <= i < |flags| :: flags[i]
  {
    if flags != [] {
      var n := |flags| - 1;
      UnresolvedEmpty(flags[..n], msgs[..n]);
      assert forall i | 0 <= i < n :: flags[..n][i] == flags[i];
    }
  }

  lemma MessagesDistinct()
    ensures Distinct(AllMessages)
  {
  }

  /** The reference list of missing-column messages. */
  function MissingMessages(r: Resolution): seq<string> {
    Unresolved(Resolved(r), AllMessages)
  }

  /** Every required field resolved; quantity and the operator table's code are optional. */
  predicate Complete(r: Resolution) {
    && r.orderId.Some? && r.orderCode.Some? && r.status.Some? && r.amount.Some?
    && r.operatorId.Some? && r.operatorName.Some?
    && r.costCode.Some? && r.cost.Some?
  }

  /** The message of field `i` is reported exactly when field `i` did not resolve. */
  lemma MissingMessagesKeep(r: Resolution)
    ensures forall i | 0 <= i < |AllMessages| :: AllMessages[i] in MissingMessages(r) <==> !Resolved(r)[i]
  {
    MessagesDistinct();
    UnresolvedKeeps(Resolved(r), AllMessages);
  }

  /** No message is reported twice. */
  lemma MissingMessagesOnce(r: Resolution)
    ensures Distinct(MissingMessages(r))
  {
    MessagesDistinct();
    UnresolvedDistinct(Resolved(r), AllMessages);
  }

  /** Each required field's message is reported exactly when that field did not resolve. */
  lemma MissingMessagesNamed(r: Resolution)
    ensures MissingOrderId in MissingMessages(r) <==> r.orderId.None?
    ensures MissingOrderCode in MissingMessages(r) <==> r.orderCode.None?
    ensures MissingStatus in MissingMessages(r) <==> r.status.None?
    ensures MissingAmount in MissingMessages(r) <==> r.amount.None?
    ensures MissingOperatorId in MissingMessages(r) <==> r.operatorId.None?
    ensures MissingOperatorName in MissingMessages(r) <==> r.operatorName.None?
    ensures MissingCostCode in MissingMessages(r) <==> r.costCode.None?
    ensures MissingCost in MissingMessages(r) <==> r.cost.None?
  {
    MissingMessagesKeep(r);
    assert AllMessages[0] == MissingOrderId && Resolved(r)[0] == r.orderId.Some?;
    assert AllMessages[1] == MissingOrderCode && Resolved(r)[1] == r.orderCode.Some?;
    assert AllMessages[2] == MissingStatus && Resolved(r)[2] == r.status.Some?;
    assert AllMessages[3] == MissingAmount && Resolved(r)[3] == r.amount.Some?;
    assert AllMessages[4] == MissingOperatorId && Resolved(r)[4] == r.operatorId.Some?;
    assert AllMessages[5] == MissingOperatorName && Resolved(r)[5] == r.operatorName.Some?;
    assert AllMessages[6] == MissingCostCode && Resolved(r)[6] == r.costCode.Some?;
    assert AllMessages[7] == MissingCost && Resolved(r)[7] == r.cost.Some?;
  }

  /** No message is reported exactly when every required field resolved. */
  lemma MissingMessagesNone(r: Resolution)
    ensures MissingMessages(r) == [] <==> Complete(r)
  {
    MissingMessagesNamed(r);
    if Complete(r) {
      UnresolvedEmpty(Resolved(r), AllMessages);
      assert Resolved(r) == [true, true, true, true, true, true, true, true];
    }
  }

  /** Exactly the unresolved required fields are reported, each once, and nothing else. */
  lemma MissingMessagesExactly(r: Resolution)
    ensures MissingOrderId in MissingMessages(r) <==> r.orderId.None?
    ensures MissingOrderCode in MissingMessages(r) <==> r.orderCode.None?
    ensures MissingStatus in MissingMessages(r) <==> r.status.None?
    ensures MissingAmount in MissingMessages(r) <==> r.amount.None?
    ensures MissingOperatorId in MissingMessages(r) <==> r.operatorId.None?
    ensures MissingOperatorName in MissingMessages(r) <==> r.operatorName.None?
    ensures MissingCostCode in MissingMessages(r) <==> r.costCode.None?
    ensures MissingCost in MissingMessages(r) <==> r.cost.None?
    ensures forall m | m in MissingMessages(r) :: m in AllMessages
    ensures Distinct(MissingMessages(r))
    ensures MissingMessages(r) == [] <==> Complete(r)
  {
    MissingMessagesNamed(r);
    UnresolvedMembers(Resolved(r), AllMessages);
    MissingMessagesOnce(r);
    MissingMessagesNone(r);
  }

  /** One more flag keeps one more message, or none. */
  lemma {:induction false} UnresolvedPrefix(flags: seq<bool>, msgs: seq<string>, k: nat)
    requires k < |flags| == |msgs|
    ensures Unresolved(flags[..k + 1], msgs[..k + 1]) == Unresolved(flags[..k], msgs[..k]) + Kept(flags[k], msgs[k])
  {
    assert flags[..k + 1][..k] == flags[..k];
    assert msgs[..k + 1][..k] == msgs[..k];
  }

  /** Four more flags keep their messages one after another. */
  lemma {:induction false} UnresolvedOfFour(f: seq<bool>, m: seq<string>, k: nat)
    requires k + 4 <= |f| == |m|
    ensures Unresolved(f[..k + 4], m[..k + 4])
            == Unresolved(f[..k], m[..k]) + Kept(f[k], m[k]) + Kept(f[k + 1], m[k + 1])
               + Kept(f[k + 2], m[k + 2]) + Kept(f[k + 3], m[k + 3])
  {
    var kept := Unresolved(f[..k], m[..k]) + Kept(f[k], m[k]);
    assert Unresolved(f[..k + 1], m[..k + 1]) == kept by { UnresolvedPrefix(f, m, k); }
    kept := kept + Kept(f[k + 1], m[k + 1]);
    assert Unresolved(f[..k + 2], m[..k + 2]) == kept by { UnresolvedPrefix(f, m, k + 1); }
    kept := kept + Kept(f[k + 2], m[k + 2]);
    assert Unresolved(f[..k + 3], m[..k + 3]) == kept by { UnresolvedPrefix(f, m, k + 2); }
    kept := kept + Kept(f[k + 3], m[k + 3]);
    assert Unresolved(f[..k + 4], m[..k + 4]) == kept by { UnresolvedPrefix(f, m, k + 3); }
  }

  /** Eight flags keep their messages one after another. */
  lemma {:induction false} UnresolvedOfEight(f: seq<bool>, m: seq<string>)
    requires |f| == |m| == 8
    ensures Unresolved(f, m) == [] + Kept(f[0], m[0]) + Kept(f[1], m[1]) + Kept(f[2], m[2]) + Kept(f[3], m[3])
                                + Kept(f[4], m[4]) + Kept(f[5], m[5]) + Kept(f[6], m[6]) + Kept(f[7], m[7])
  {
    assert Unresolved(f[..0], m[..0]) == [] by {
      assert f[..0] == [] && m[..0] == [];
    }
    UnresolvedOfFour(f, m, 0);
    UnresolvedOfFour(f, m, 4);
    assert f[..8] == f && m[..8] == m;
  }

  /** `if not column: missing_columns.append(message)` for one required field. */
  method NoteMissing(missing: seq<string>, column: Option<string>, message: string) returns (r: seq<string>)
    ensures r == missing + Kept(column.Some?, message)
  {
    r := missing;
    if column.None? {
      r := r + [message];
    }
  }

  /** Builds `missing_columns` by one append per unresolved required field. */
  method CollectMissing(r: Resolution) returns (missing: seq<string>)
    ensures missing == MissingMessages(r)
  {
    missing := [];
    missing := NoteMissing(missing, r.orderId, MissingOrderId);
    missing := NoteMissing(missing, r.orderCode, MissingOrderCode);
    missing := NoteMissing(missing, r.status, MissingStatus);
    missing := NoteMissing(missing, r.amount, MissingAmount);
    missing := NoteMissing(missing, r.operatorId, MissingOperatorId);
    missing := NoteMissing(missing, r.operatorName, MissingOperatorName);
    missing := NoteMissing(missing, r.costCode, MissingCostCode);
    missing := NoteMissing(missing, r.cost, MissingCost);
    UnresolvedOfEight(Resolved(r), AllMessages);
  }

  /**
   * Renaming the resolved quantity column to `商品数量` while another column
   * already has that name leaves two columns under one name, and converting
   * that pair to numbers fails.
   */
  predicate QuantityClash(r: Resolution, orderColumns: seq<string>) {
    r.quantity.Some? && r.quantity.value != QuantityColumn && QuantityColumn in orderColumns
  }

  /**
   * `pd.to_numeric(errors='coerce').fillna(1)` of one quantity cell, with
   * every text cell treated as unparseable: a text cell holding digits also
   * gives 1 here.
   */
  function QuantityOf(c: Cell): real {
    if c.Num? then c.value else 1.0
  }

  /** A row's 运费 when its table is the one whose 运费 the merged rows carry, and missing otherwise. */
  function FeeOf(row: Row, r: Resolution, table: FeeSource): Cell {
    if r.shipping == table then Get(row, ShippingColumn) else Missing
  }

  function OrderRecordOf(row: Row, r: Resolution): OrderRecord
    requires Complete(r)
  {
    OrderRecord(
      Get(row, r.orderId.value), Get(row, r.orderCode.value), Get(row, r.status.value),
      Get(row, r.amount.value),
      if r.quantity.Some? then QuantityOf(Get(row, r.quantity.value)) else 1.0,
      FeeOf(row, r, OrderFee))
  }

  function OperatorRecordOf(row: Row, r: Resolution): OperatorRecord
    requires Complete(r)
  {
    OperatorRecord(
      Get(row, r.operatorId.value),
      if r.operatorCode.Some? then Get(row, r.operatorCode.value) else Missing,
      Get(row, r.operatorName.value), FeeOf(row, r, OperatorFee))
  }

  function CostRecordOf(row: Row, r: Resolution): CostRecord
    requires Complete(r)
  {
    CostRecord(Get(row, r.costCode.value), Get(row, r.cost.value), FeeOf(row, r, CostFee))
  }

  /** Only the table the merged rows take 运费 from supplies one: the other tables' records carry none. */
  lemma FeesOfOtherTables(orders: Table, operators: Table, costs: Table, r: Resolution)
    requires Complete(r)
    ensures r.shipping != OrderFee ==> forall i | 0 <= i < |orders.rows| :: OrderRecords(orders, r)[i].shipping == Missing
    ensures r.shipping == OrderFee ==>
              forall i | 0 <= i < |orders.rows| :: OrderRecords(orders, r)[i].shipping == Get(orders.rows[i], ShippingColumn)
    ensures r.shipping != OperatorFee ==> forall x | x in OperatorRecords(operators, r) :: x.shipping == Missing
    ensures r.shipping != CostFee ==> forall x | x in CostRecords(costs, r) :: x.shipping == Missing
  {
  }

  function OrderRecords(t: Table, r: Resolution): seq<OrderRecord>
    requires Complete(r)
  {
    seq(|t.rows|, i requires 0 <= i < |t.rows| => OrderRecordOf(t.rows[i], r))
  }

  function OperatorRecords(t: Table, r: Resolution): seq<OperatorRecord>
    requires Complete(r)
  {
    seq(|t.rows|, i requires 0 <= i < |t.rows| => OperatorRecordOf(t.rows[i], r))
  }

  function CostRecords(t: Table, r: Resolution): seq<CostRecord>
    requires Complete(r)
  {
    seq(|t.rows|, i requires 0 <= i < |t.rows| => CostRecordOf(t.rows[i], r))
  }

  /**
   * Quantity defaulting: without a quantity column every order counts one
   * item; with one, a cell that is not a number counts one item as well.
   */
  lemma QuantityDefaults(t: Table, r: Resolution, i: nat)
    requires Complete(r) && i < |t.rows|
    ensures r.quantity.None? ==> OrderRecords(t, r)[i].quantity == 1.0
    ensures r.quantity.Some? ==> OrderRecords(t, r)[i].quantity ==
                                 (match Get(t.rows[i], r.quantity.value) case Num(v) => v case _ => 1.0)
  {
  }

  /** A canonical header resolves to itself, so renaming a table twice changes nothing more. */
  lemma CanonicalNamesResolve(orders: seq<string>)
    requires "商品ID" in orders && "商品编码" in orders && "订单状态" in orders && "实收金额" in orders
    ensures FindColumn(orders, IdAliases) == Some("商品ID")
    ensures FindColumn(orders, CodeAliases) == Some("商品编码")
    ensures FindColumn(orders, StatusAliases) == Some("订单状态")
    ensures FindColumn(orders, AmountAliases) == Some("实收金额")
  {
  }
}
