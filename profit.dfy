/**
 * The per-row profit rule `calculate_profit_loss`: an ordered keyword
 * classifier on the order status and one formula per category, with the
 * missing-cost short-circuit in front of every status test.
 */
module Profit {
  import opened Text
  import opened Tables
  import opened Records

  const ReceivedKeywords: seq<string> := ["已收货", "已完成", "完成", "收货"]
  const ReturnedKeywords: seq<string> := ["退货", "退款", "退回"]
  const ShippedKeywords: seq<string> := ["已发货待收货", "已发货", "待收货"]
  const WaitingKeywords: seq<string> := ["待发货", "待处理", "待确认"]

  /** The five branches of the rule, in the order the rule tries them. */
  datatype Category = Received | Returned | Shipped | Waiting | Other

  /** Where a branch stands in the chain of tests. */
  function Position(c: Category): nat {
    match c
    case Received => 0
    case Returned => 1
    case Shipped => 2
    case Waiting => 3
    case Other => 4
  }

  /** The keywords that select a branch; the fallback has none. */
  function Keywords(c: Category): seq<string> {
    match c
    case Received => ReceivedKeywords
    case Returned => ReturnedKeywords
    case Shipped => ShippedKeywords
    case Waiting => WaitingKeywords
    case Other => []
  }

  /**
   * The first keyword group the status contains decides the category: the
   * status holds a keyword of its own branch and none of any branch tried
   * before it.
   */
  function Classify(status: string): (c: Category)
    ensures c != Other ==> ContainsAny(status, Keywords(c))
    ensures forall d | Position(d) < Position(c) :: !ContainsAny(status, Keywords(d))
  {
    if ContainsAny(status, ReceivedKeywords) then Received
    else if ContainsAny(status, ReturnedKeywords) then Returned
    else if ContainsAny(status, ShippedKeywords) then Shipped
    else if ContainsAny(status, WaitingKeywords) then Waiting
    else Other
  }

  /**
   * `str(x).strip().lower()` of the status cell. A missing cell prints as
   * `nan`; a number prints as digits, which never hold a keyword, so its
   * text is left empty here.
   */
  function StatusText(c: Cell): (t: string)
    ensures forall i | 0 <= i < |t| :: !IsUpper(t[i])
    ensures c.Str? ==> |t| <= |c.text| && (t == [] || (!IsSpace(t[0]) && !IsSpace(t[|t| - 1])))
    ensures c.Missing? ==> t == "nan"
  {
    match c
    case Str(s) => Lower(Strip(s))
    case Missing => "nan"
    case Num(_) => ""
  }

  function CategoryOf(row: Joined): Category {
    Classify(StatusText(row.order.status))
  }

  /**
   * `str.contains(pattern, case=False, na=False)`, as the rollup counts a
   * status: only text cells match, and for keywords without letters or
   * surrounding whitespace the test reads the raw text.
   */
  predicate StatusMatches(c: Cell, keywords: seq<string>)
    ensures StatusMatches(c, keywords) ==> c.Str?
    ensures (forall j | 0 <= j < |keywords| :: Plain(keywords[j])) ==>
              (StatusMatches(c, keywords) <==> c.Str? && ContainsAny(c.text, keywords))
  {
    c.Str? && (LowerKeepsGroup(c.text, keywords); ContainsAny(Lower(c.text), keywords))
  }

  /** 盈亏 and 待确认盈利 of one row. */
  datatype ProfitPair = ProfitPair(realised: real, pending: real)

  /** Unit cost times quantity; a cost cell that is not a number counts as zero. */
  function TotalCost(row: Joined): real {
    NumberOr(row.cost, 0.0) * row.order.quantity
  }

  /** The received amount; a missing or non-numeric amount counts as zero. */
  function Amount(row: Joined): real {
    NumberOr(row.order.amount, 0.0)
  }

  function ProfitLoss(row: Joined): (p: ProfitPair)
    ensures row.cost.Missing? ==> p == ProfitPair(0.0, 0.0)
    ensures p.realised == 0.0 || p.pending == 0.0
    ensures p.pending != 0.0 ==> CategoryOf(row) == Shipped
    ensures CategoryOf(row) == Waiting ==> p == ProfitPair(0.0, 0.0)
  {
    if row.cost.Missing? then ProfitPair(0.0, 0.0)
    else
      match CategoryOf(row)
      case Received => ProfitPair(Amount(row) - TotalCost(row), 0.0)
      case Returned => ProfitPair(-TotalCost(row) - NumberOr(row.shipping, 0.0), 0.0)
      case Shipped => ProfitPair(0.0, Amount(row) - TotalCost(row))
      case Waiting => ProfitPair(0.0, 0.0)
      case Other => ProfitPair(Amount(row) - TotalCost(row), 0.0)
  }

  // ---------------------------------------------------------------------
  // The keyword groups
  // ---------------------------------------------------------------------

  lemma KeywordsArePlain()
    ensures forall j | 0 <= j < |ReceivedKeywords| :: Plain(ReceivedKeywords[j])
    ensures forall j | 0 <= j < |ReturnedKeywords| :: Plain(ReturnedKeywords[j])
    ensures forall j | 0 <= j < |ShippedKeywords| :: Plain(ShippedKeywords[j])
    ensures forall j | 0 <= j < |WaitingKeywords| :: Plain(WaitingKeywords[j])
  {
  }

  lemma ContainsAnyNormalised(s: string, ks: seq<string>)
    requires forall j | 0 <= j < |ks| :: Plain(ks[j])
    ensures ContainsAny(Lower(Strip(s)), ks) <==> ContainsAny(s, ks)
    ensures ContainsAny(Lower(s), ks) <==> ContainsAny(s, ks)
  {
    forall j | 0 <= j < |ks|
      ensures Contains(Lower(Strip(s)), ks[j]) <==> Contains(s, ks[j])
      ensures Contains(Lower(s), ks[j]) <==> Contains(s, ks[j])
    {
      ContainsLower(Strip(s), ks[j]);
      ContainsStrip(s, ks[j]);
      ContainsLower(s, ks[j]);
    }
  }

  /**
   * Stripping and lower-casing never change the category of a text status:
   * every keyword is CJK text without surrounding whitespace.
   */
  lemma ClassifyNormalised(s: string)
    ensures CategoryOfText(s) == Classify(s)
  {
    KeywordsArePlain();
    ContainsAnyNormalised(s, ReceivedKeywords);
    ContainsAnyNormalised(s, ReturnedKeywords);
    ContainsAnyNormalised(s, ShippedKeywords);
    ContainsAnyNormalised(s, WaitingKeywords);
  }

  function CategoryOfText(s: string): Category {
    Classify(StatusText(Str(s)))
  }

  /** Case does not matter to a group of plain keywords. */
  lemma LowerKeepsGroup(s: string, ks: seq<string>)
    ensures (forall j | 0 <= j < |ks| :: Plain(ks[j])) ==> (ContainsAny(Lower(s), ks) <==> ContainsAny(s, ks))
  {
    if forall j | 0 <= j < |ks| :: Plain(ks[j]) {
      ContainsAnyNormalised(s, ks);
    }
  }

  lemma NanIsOther()
    ensures Classify(StatusText(Missing)) == Other
  {
    KeywordsArePlain();
    NanHoldsNoKeyword(ReceivedKeywords);
    NanHoldsNoKeyword(ReturnedKeywords);
    NanHoldsNoKeyword(ShippedKeywords);
    NanHoldsNoKeyword(WaitingKeywords);
  }

  /**
   * The rollup's case-insensitive counts and the profit rule read the same
   * keyword groups: a status is counted as received exactly when the rule
   * takes the received branch for it.
   */
  lemma ReceivedCountMatchesBranch(c: Cell)
    ensures StatusMatches(c, ReceivedKeywords) <==> Classify(StatusText(c)) == Received
  {
    match c
    case Str(s) =>
      TextReceived(s);
    case Missing =>
      NanIsOther();
    case Num(_) =>
      EmptyIsOther();
  }

  lemma TextReceived(s: string)
    ensures StatusMatches(Str(s), ReceivedKeywords) <==> CategoryOfText(s) == Received
  {
    var holds := ContainsAny(s, ReceivedKeywords);
    assert StatusMatches(Str(s), ReceivedKeywords) == holds by {
      KeywordsArePlain();
    }
    assert CategoryOfText(s) == Classify(s) by {
      ClassifyNormalised(s);
    }
    assert Classify(s) == Received <==> holds;
  }

  lemma EmptyIsOther()
    ensures Classify("") == Other
  {
  }

  lemma NanHoldsNoKeyword(ks: seq<string>)
    requires forall j | 0 <= j < |ks| :: Plain(ks[j])
    ensures !ContainsAny("nan", ks)
  {
    forall j, i | 0 <= j < |ks| && 0 <= i <= 3 - |ks[j]|
      ensures !OccursAt("nan", ks[j], i)
    {
      assert Plain(ks[j]);
      assert !IsAsciiLetter(ks[j][0]);
      assert "nan"[i] == 'n' || "nan"[i] == 'a';
    }
  }

  /** The received group reduces to its two shortest keywords. */
  lemma ReceivedKeywordsReduce(s: string)
    ensures ContainsAny(s, ReceivedKeywords) <==> Contains(s, "完成") || Contains(s, "收货")
  {
    if Contains(s, "已收货") {
      ContainsVia(s, "已收货", "收货", 1);
    }
    if Contains(s, "已完成") {
      ContainsVia(s, "已完成", "完成", 1);
    }
    if Contains(s, "完成") {
      assert Contains(s, ReceivedKeywords[2]);
    }
    if Contains(s, "收货") {
      assert Contains(s, ReceivedKeywords[3]);
    }
  }

  /** The shipped group reduces to 已发货 and 待收货. */
  lemma ShippedKeywordsReduce(s: string)
    ensures ContainsAny(s, ShippedKeywords) <==> Contains(s, "已发货") || Contains(s, "待收货")
  {
    if Contains(s, "已发货待收货") {
      ContainsVia(s, "已发货待收货", "已发货", 0);
    }
    if Contains(s, "已发货") {
      assert Contains(s, ShippedKeywords[1]);
    }
    if Contains(s, "待收货") {
      assert Contains(s, ShippedKeywords[2]);
    }
  }

  /**
   * `'收货'` is a received keyword, so every status holding `'待收货'`, and
   * with it `'已发货待收货'`, takes the received branch.
   */
  lemma AwaitingReceiptIsReceived(s: string)
    requires Contains(s, "待收货")
    ensures Classify(s) == Received
  {
    ContainsVia(s, "待收货", "收货", 1);
    ReceivedKeywordsReduce(s);
  }

  /**
   * The shipped branch is reached exactly for statuses holding `'已发货'`
   * but no `'收货'`, no `'完成'` and no return keyword.
   */
  lemma ShippedBranchExactly(s: string)
    ensures Classify(s) == Shipped <==>
      Contains(s, "已发货") && !Contains(s, "收货") && !Contains(s, "完成")
      && !ContainsAny(s, ReturnedKeywords)
  {
    ReceivedKeywordsReduce(s);
    ShippedKeywordsReduce(s);
    if Contains(s, "待收货") {
      ContainsVia(s, "待收货", "收货", 1);
    }
  }

  /** One status can be counted both as received and as shipped: the counts are independent. */
  lemma CountsOverlap()
    ensures StatusMatches(Str("已发货待收货"), ReceivedKeywords)
    ensures StatusMatches(Str("已发货待收货"), ShippedKeywords)
  {
    var s := "已发货待收货";
    KeywordsArePlain();
    HoldsKeyword(s, ReceivedKeywords, 3, 4);
    HoldsKeyword(s, ShippedKeywords, 1, 0);
  }

  lemma HoldsKeyword(s: string, ks: seq<string>, j: nat, i: nat)
    requires j < |ks| && OccursAt(s, ks[j], i)
    ensures ContainsAny(s, ks)
  {
    assert Contains(s, ks[j]);
  }

  // ---------------------------------------------------------------------
  // The formulas, stated on the raw status text
  // ---------------------------------------------------------------------

  /**
   * A return: the realised result is minus the goods' cost and the shipping
   * fee, whatever was received, and nothing is pending.
   */
  lemma ReturnedRowLoses(row: Joined, s: string)
    requires !row.cost.Missing? && row.order.status == Str(s)
    requires ContainsAny(s, ReturnedKeywords) && !ContainsAny(s, ReceivedKeywords)
    ensures ProfitLoss(row) == ProfitPair(-TotalCost(row) - NumberOr(row.shipping, 0.0), 0.0)
  {
    ClassifyNormalised(s);
  }

  /**
   * A received or completed order: the amount minus the goods' cost is
   * realised, nothing is pending.
   */
  lemma ReceivedRowRealises(row: Joined, s: string)
    requires !row.cost.Missing? && row.order.status == Str(s)
    requires ContainsAny(s, ReceivedKeywords)
    ensures ProfitLoss(row) == ProfitPair(Amount(row) - TotalCost(row), 0.0)
  {
    ClassifyNormalised(s);
  }

  /** A shipped, not yet received order contributes only to pending profit. */
  lemma ShippedRowIsPending(row: Joined, s: string)
    requires !row.cost.Missing? && row.order.status == Str(s)
    requires Contains(s, "已发货") && !Contains(s, "收货") && !Contains(s, "完成")
    requires !ContainsAny(s, ReturnedKeywords)
    ensures ProfitLoss(row) == ProfitPair(0.0, Amount(row) - TotalCost(row))
  {
    ClassifyNormalised(s);
    ShippedBranchExactly(s);
  }

  /** An order awaiting receipt is settled as received: amount minus cost, nothing pending. */
  lemma AwaitingReceiptRowIsRealised(row: Joined, s: string)
    requires !row.cost.Missing? && row.order.status == Str(s)
    requires Contains(s, "待收货")
    ensures ProfitLoss(row) == ProfitPair(Amount(row) - TotalCost(row), 0.0)
  {
    ClassifyNormalised(s);
    AwaitingReceiptIsReceived(s);
  }

  /** A status the rule does not recognise is settled like a received order. */
  lemma FallbackIsRealised(row: Joined)
    requires !row.cost.Missing? && CategoryOf(row) == Other
    ensures ProfitLoss(row) == ProfitPair(Amount(row) - TotalCost(row), 0.0)
  {
  }

  lemma ReceivedStatus()
    ensures CategoryOfText("已收货") == Received
  {
    var s := "已收货";
    HoldsKeyword(s, ReceivedKeywords, 0, 0);
    ClassifyNormalised(s);
  }

  /** A cost cell that is present but not a number is a zero cost, not a missing one. */
  lemma TextCostIsZeroCost(row: Joined)
    requires row.cost.Str?
    ensures ProfitLoss(row) == ProfitLoss(row.(cost := Num(0.0)))
  {
  }

  /** A missing or non-numeric amount is a zero amount. */
  lemma NonNumericAmountIsZero(row: Joined)
    requires !row.order.amount.Num?
    ensures ProfitLoss(row) == ProfitLoss(row.(order := row.order.(amount := Num(0.0))))
  {
  }

  /** The worked case: received, amount 100, two items at cost 10, gives a realised 80. */
  lemma ReceivedExample()
    ensures ProfitLoss(Joined(OrderRecord(Str("P1"), Str("C1"), Str("已收货"), Num(100.0), 2.0, Missing),
                              Str("Alice"), Num(10.0), Missing)) == ProfitPair(80.0, 0.0)
  {
    ReceivedStatus();
  }
}
