/**
 * The accounting roll-ups. Per order: what the lines bill (in total and per
 * customer), what the purchases cost, whether buying covered what was
 * ordered (with the bought and missing tags), what was paid, what is still
 * due and the profit. Per customer: what the charges bill, what was paid,
 * and optionally the same split by order. The handlers only read the
 * tables, so every roll-up is a fold over the rows they query.
 */
module Accounting {
  import opened Common
  import opened Records
  import opened Tables
  import opened Pricing
  import opened PurchaseRules

  // ---------------------------------------------------------------------
  // Charges and payments
  // ---------------------------------------------------------------------

  function Net(c: Charge): real { c.total - c.discount }

  /** `_sum_billed`: the charges' dues, `max(0, total - discount)` each, added up. */
  function SumBilled(charges: seq<Charge>): real
  {
    SumOf(charges, Due)
  }

  /** The billed sum is never negative and never below the plain sum of `total - discount`. */
  lemma {:induction false} SumBilledBounds(charges: seq<Charge>)
    ensures SumBilled(charges) >= 0.0
    ensures SumBilled(charges) >= SumOf(charges, Net)
  {
    if charges != [] {
      SumBilledBounds(charges[..|charges| - 1]);
    }
  }

  function AmountOf(a: PaymentApplication): real { a.amount }

  /** The applications made to one of `ids`. */
  function OnAny(ids: seq<nat>): PaymentApplication -> bool
  {
    (a: PaymentApplication) => a.chargeId in ids
  }

  /** `_sum_paid_for_charge_ids`: everything applied to any of the charges. */
  function PaidFor(apps: Table<PaymentApplication>, ids: seq<nat>): real
  {
    SumWhere(apps, OnAny(ids), AmountOf)
  }

  /** `max(0, billed - paid)`: what is still owed. */
  function Outstanding(billed: real, paid: real): (r: real)
    ensures r >= 0.0 && r >= billed - paid
    ensures r == 0.0 || r == billed - paid
    ensures r == 0.0 <==> paid >= billed
  {
    Max0(billed - paid)
  }

  // ---------------------------------------------------------------------
  // Billing of an order
  // ---------------------------------------------------------------------

  /** `charged_qty` when recorded, else the ordered `qty`: what the customer pays for. */
  function QtyToBill(it: OrderItem): real
  {
    OrElse(it.chargedQty, it.qty)
  }

  /** One line's amount: the quantity to bill times `sale_unit_price or 0`. */
  function LineBilled(it: OrderItem): real
  {
    QtyToBill(it) * OrZero(it.saleUnitPrice)
  }

  /** `billed_total`: the lines' amounts added up. */
  function Billed(items: seq<OrderItem>): real
  {
    SumOf(items, LineBilled)
  }

  function CustomerOf(it: OrderItem): int { it.customerId }

  /** `billed_by_customer`: the dictionary the billing loop fills, line by line. */
  function BilledByCustomer(items: seq<OrderItem>): map<int, real>
  {
    Tally(items, CustomerOf, LineBilled)
  }

  /**
   * The dictionary has one entry per customer with lines, that entry is the
   * customer's lines added up, and the entries, in the dictionary's order,
   * add up to the order's billed total.
   */
  lemma {:induction false} BilledByCustomerAddsUp(items: seq<OrderItem>)
    ensures forall c :: c in BilledByCustomer(items) <==> exists i :: 0 <= i < |items| && items[i].customerId == c
    ensures forall c :: c in BilledByCustomer(items) ==>
              BilledByCustomer(items)[c] == SumFor(items, CustomerOf, c, LineBilled)
    ensures forall i :: 0 <= i < |KeysOf(items, CustomerOf)| ==> KeysOf(items, CustomerOf)[i] in BilledByCustomer(items)
    ensures Sum(ValuesAt(BilledByCustomer(items), KeysOf(items, CustomerOf))) == Billed(items)
  {
    TallyExact(items, CustomerOf, LineBilled);
    KeysOfExact(items, CustomerOf);
    TallyAddsUp(items, CustomerOf, LineBilled);
    forall c ensures c in BilledByCustomer(items) <==> exists i :: 0 <= i < |items| && items[i].customerId == c {
      if exists i :: 0 <= i < |items| && items[i].customerId == c {
        var i :| 0 <= i < |items| && items[i].customerId == c;
        assert CustomerOf(items[i]) == c;
      }
      if c in BilledByCustomer(items) {
        var i :| 0 <= i < |items| && CustomerOf(items[i]) == c;
        assert items[i].customerId == c;
      }
    }
  }

  /** Lines with non-negative quantities and prices bill a non-negative total. */
  lemma {:induction false} BilledNonNegative(items: seq<OrderItem>)
    requires forall i :: 0 <= i < |items| ==> QtyToBill(items[i]) >= 0.0 && OrZero(items[i].saleUnitPrice) >= 0.0
    ensures Billed(items) >= 0.0
  {
    if items != [] {
      BilledNonNegative(items[..|items| - 1]);
    }
  }

  // ---------------------------------------------------------------------
  // Cost of an order
  // ---------------------------------------------------------------------

  /**
   * A purchase's cost: `price_total` when recorded, else `price_per_unit`
   * times the quantity in the charged unit (kg unless it says otherwise).
   */
  function PurchaseCost(p: Purchase): real
  {
    if p.priceTotal.Some? then p.priceTotal.value
    else OrZero(p.pricePerUnit) * (if OrText(p.chargedUnit, "kg") == "kg" then OrZero(p.qtyKg) else OrZero(p.qtyUnit))
  }

  /** `total_cost`: the purchases' costs added up. */
  function Cost(purchases: seq<Purchase>): real
  {
    SumOf(purchases, PurchaseCost)
  }

  /** No negative money or quantity on a purchase. */
  predicate Priced(p: Purchase)
  {
    (p.priceTotal.Some? ==> p.priceTotal.value >= 0.0)
    && OrZero(p.pricePerUnit) >= 0.0 && OrZero(p.qtyKg) >= 0.0 && OrZero(p.qtyUnit) >= 0.0
  }

  /** Purchases without negative amounts cost at least nothing, and a recorded total is the cost. */
  lemma {:induction false} CostBounds(purchases: seq<Purchase>)
    ensures (forall i :: 0 <= i < |purchases| ==> Priced(purchases[i])) ==> Cost(purchases) >= 0.0
    ensures (forall i :: 0 <= i < |purchases| ==> purchases[i].priceTotal.Some?) ==>
              Cost(purchases) == SumOf(purchases, (p: Purchase) => OrZero(p.priceTotal))
  {
    if purchases != [] {
      CostBounds(purchases[..|purchases| - 1]);
    }
  }

  // ---------------------------------------------------------------------
  // Demand, supply and the purchase verdict
  // ---------------------------------------------------------------------

  function ProductOf(it: OrderItem): int { it.productId }

  /** The bucket a line's quantity is added to: its unit, `kg` when blank. */
  function Bucket(it: OrderItem): string
  {
    OrText(it.unit, "kg")
  }

  function KgOrdered(it: OrderItem): real { if Bucket(it) == "kg" then it.qty else 0.0 }

  function UnitsOrdered(it: OrderItem): real { if Bucket(it) == "unit" then it.qty else 0.0 }

  /** `need_kg`: the product's lines kept in kilograms. */
  function NeedKg(items: seq<OrderItem>, pid: int): real
  {
    SumFor(items, ProductOf, pid, KgOrdered)
  }

  /** `need_unit`: the product's lines kept in pieces. */
  function NeedUnit(items: seq<OrderItem>, pid: int): real
  {
    SumFor(items, ProductOf, pid, UnitsOrdered)
  }

  /** The products of an order, in the order `needed_by_product` lists them. */
  function Products(items: seq<OrderItem>): seq<int>
  {
    KeysOf(items, ProductOf)
  }

  function PurchaseProduct(p: Purchase): int { p.productId }

  /** A purchase adds its kilograms when set, plus its kilogram equivalent when recorded. */
  function KgBought(p: Purchase): real { OrZero(p.qtyKg) + OrZero(p.eqQtyKg) }

  function UnitsBought(p: Purchase): real { OrZero(p.qtyUnit) + OrZero(p.eqQtyUnit) }

  /** `got_kg`: what the purchases of the product bought, in kilograms. */
  function GotKg(purchases: seq<Purchase>, pid: int): real
  {
    SumFor(purchases, PurchaseProduct, pid, KgBought)
  }

  function GotUnit(purchases: seq<Purchase>, pid: int): real
  {
    SumFor(purchases, PurchaseProduct, pid, UnitsBought)
  }

  /** `kg_ok and unit_ok`: the product's demand is met in both units. */
  predicate ProductOk(items: seq<OrderItem>, purchases: seq<Purchase>, pid: int)
  {
    Covers(NeedKg(items, pid), GotKg(purchases, pid)) && Covers(NeedUnit(items, pid), GotUnit(purchases, pid))
  }

  /** More was bought than a non-zero demand, in either unit. */
  predicate Excess(items: seq<OrderItem>, purchases: seq<Purchase>, pid: int)
  {
    (NeedKg(items, pid) > 0.0 && GotKg(purchases, pid) > NeedKg(items, pid))
    || (NeedUnit(items, pid) > 0.0 && GotUnit(purchases, pid) > NeedUnit(items, pid))
  }

  datatype Verdict = Incomplete | Complete | Over

  /** The order in which buying progresses: incomplete, then complete, then over. */
  function Rank(v: Verdict): nat
  {
    match v
    case Incomplete => 0
    case Complete => 1
    case Over => 2
  }

  /** The two flags of the verdict loop: still complete, and some excess seen. */
  datatype Flags = Flags(complete: bool, excess: bool)

  /** The verdict loop over `pids`. */
  function Walk(items: seq<OrderItem>, purchases: seq<Purchase>, pids: seq<int>): Flags
  {
    if pids == [] then Flags(true, false)
    else
      var t := Walk(items, purchases, pids[..|pids| - 1]);
      var pid := pids[|pids| - 1];
      Flags(t.complete && ProductOk(items, purchases, pid), t.excess || Excess(items, purchases, pid))
  }

  /** `purchase_status`: incomplete unless every product is covered; over if some product was over-bought. */
  function Status(items: seq<OrderItem>, purchases: seq<Purchase>): Verdict
  {
    var t := Walk(items, purchases, Products(items));
    if !t.complete then Incomplete else if t.excess then Over else Complete
  }

  lemma {:induction false} WalkExact(items: seq<OrderItem>, purchases: seq<Purchase>, pids: seq<int>)
    ensures Walk(items, purchases, pids).complete <==> forall pid :: pid in pids ==> ProductOk(items, purchases, pid)
    ensures Walk(items, purchases, pids).excess <==> exists pid :: pid in pids && Excess(items, purchases, pid)
  {
    if pids != [] {
      var init := pids[..|pids| - 1];
      WalkExact(items, purchases, init);
      assert pids == init + [pids[|pids| - 1]];
    }
  }

  /** The verdict is incomplete exactly when some ordered product is short, and over exactly when none is but one is over-bought. */
  lemma {:induction false} StatusExact(items: seq<OrderItem>, purchases: seq<Purchase>)
    ensures Status(items, purchases) == Incomplete <==>
              exists pid :: pid in Products(items) && !ProductOk(items, purchases, pid)
    ensures Status(items, purchases) == Over <==>
              (forall pid :: pid in Products(items) ==> ProductOk(items, purchases, pid))
              && exists pid :: pid in Products(items) && Excess(items, purchases, pid)
  {
    WalkExact(items, purchases, Products(items));
  }

  /** A purchase that records no negative quantity. */
  predicate NonNegative(p: Purchase)
  {
    OrZero(p.qtyKg) >= 0.0 && OrZero(p.eqQtyKg) >= 0.0 && OrZero(p.qtyUnit) >= 0.0 && OrZero(p.eqQtyUnit) >= 0.0
  }

  /** One more purchase adds to its own product and leaves every other product's supply alone. */
  lemma {:induction false} GotStep(purchases: seq<Purchase>, p: Purchase, pid: int)
    ensures GotKg(purchases + [p], pid) == GotKg(purchases, pid) + (if p.productId == pid then KgBought(p) else 0.0)
    ensures GotUnit(purchases + [p], pid) == GotUnit(purchases, pid) + (if p.productId == pid then UnitsBought(p) else 0.0)
  {
    assert (purchases + [p])[..|purchases|] == purchases;
  }

  /** Recording a purchase with non-negative quantities never moves the verdict backwards. */
  lemma {:induction false} StatusMonotone(items: seq<OrderItem>, purchases: seq<Purchase>, p: Purchase)
    requires NonNegative(p)
    ensures Rank(Status(items, purchases)) <= Rank(Status(items, purchases + [p]))
  {
    var before := Status(items, purchases);
    var after := Status(items, purchases + [p]);
    StatusExact(items, purchases);
    StatusExact(items, purchases + [p]);
    forall pid | pid in Products(items)
      ensures ProductOk(items, purchases, pid) ==> ProductOk(items, purchases + [p], pid)
      ensures Excess(items, purchases, pid) ==> Excess(items, purchases + [p], pid)
    {
      GotStep(purchases, p, pid);
    }
    if before == Over {
      var pid :| pid in Products(items) && Excess(items, purchases, pid);
      assert Excess(items, purchases + [p], pid);
    }
  }

  /** A purchase of a product the order does not contain leaves the verdict as it was. */
  lemma {:induction false} StatusIgnoresOtherProducts(items: seq<OrderItem>, purchases: seq<Purchase>, p: Purchase)
    requires p.productId !in Products(items)
    ensures Status(items, purchases + [p]) == Status(items, purchases)
  {
    StatusExact(items, purchases);
    StatusExact(items, purchases + [p]);
    forall pid | pid in Products(items)
      ensures ProductOk(items, purchases, pid) == ProductOk(items, purchases + [p], pid)
      ensures Excess(items, purchases, pid) == Excess(items, purchases + [p], pid)
    {
      GotStep(purchases, p, pid);
    }
  }

  // ---------------------------------------------------------------------
  // Bought and missing tags
  // ---------------------------------------------------------------------

  /** One tag of the summary: a product and an amount in kilograms and in pieces. */
  datatype Tag = Tag(productId: int, kg: real, unit: real)

  /** `bought_tags`: for each product, in order, what was bought when anything was. */
  function BoughtTags(items: seq<OrderItem>, purchases: seq<Purchase>, pids: seq<int>): seq<Tag>
  {
    if pids == [] then []
    else
      var tags := BoughtTags(items, purchases, pids[..|pids| - 1]);
      var pid := pids[|pids| - 1];
      if GotKg(purchases, pid) > 0.0 || GotUnit(purchases, pid) > 0.0
      then tags + [Tag(pid, GotKg(purchases, pid), GotUnit(purchases, pid))]
      else tags
  }

  /** What is still missing of a product, never negative. */
  function MissingTag(items: seq<OrderItem>, purchases: seq<Purchase>, pid: int): Tag
  {
    Tag(pid, Max0(NeedKg(items, pid) - GotKg(purchases, pid)), Max0(NeedUnit(items, pid) - GotUnit(purchases, pid)))
  }

  /** A product falls short in some unit. */
  predicate Short(items: seq<OrderItem>, purchases: seq<Purchase>, pid: int)
  {
    NeedKg(items, pid) > GotKg(purchases, pid) || NeedUnit(items, pid) > GotUnit(purchases, pid)
  }

  /** `missing_tags`: for each product, in order, what is missing when anything is. */
  function MissingTags(items: seq<OrderItem>, purchases: seq<Purchase>, pids: seq<int>): seq<Tag>
  {
    if pids == [] then []
    else
      var tags := MissingTags(items, purchases, pids[..|pids| - 1]);
      var pid := pids[|pids| - 1];
      var t := MissingTag(items, purchases, pid);
      if t.kg > 0.0 || t.unit > 0.0 then tags + [t] else tags
  }

  /** A bought tag exists exactly for the listed products something was bought for, and carries what was bought. */
  lemma {:induction false} BoughtTagsExact(items: seq<OrderItem>, purchases: seq<Purchase>, pids: seq<int>)
    ensures forall t :: t in BoughtTags(items, purchases, pids) ==>
              t.productId in pids && t.kg == GotKg(purchases, t.productId) && t.unit == GotUnit(purchases, t.productId)
              && (t.kg > 0.0 || t.unit > 0.0)
    ensures forall pid :: pid in pids && (GotKg(purchases, pid) > 0.0 || GotUnit(purchases, pid) > 0.0) ==>
              Tag(pid, GotKg(purchases, pid), GotUnit(purchases, pid)) in BoughtTags(items, purchases, pids)
  {
    if pids != [] {
      var init := pids[..|pids| - 1];
      BoughtTagsExact(items, purchases, init);
      assert pids == init + [pids[|pids| - 1]];
    }
  }

  /** A missing tag exists exactly for the listed products that fall short, and carries positive shortfalls only. */
  lemma {:induction false} MissingTagsExact(items: seq<OrderItem>, purchases: seq<Purchase>, pids: seq<int>)
    ensures forall t :: t in MissingTags(items, purchases, pids) ==>
              t.productId in pids && t == MissingTag(items, purchases, t.productId)
              && t.kg >= 0.0 && t.unit >= 0.0 && (t.kg > 0.0 || t.unit > 0.0)
    ensures forall pid :: pid in pids && Short(items, purchases, pid) ==>
              MissingTag(items, purchases, pid) in MissingTags(items, purchases, pids)
    ensures forall t :: t in MissingTags(items, purchases, pids) ==> Short(items, purchases, t.productId)
  {
    if pids != [] {
      var init := pids[..|pids| - 1];
      MissingTagsExact(items, purchases, init);
      assert pids == init + [pids[|pids| - 1]];
    }
  }

  /** A purchase list without negative quantities supplies nothing negative. */
  lemma {:induction false} GotNonNegative(purchases: seq<Purchase>, pid: int)
    requires forall i :: 0 <= i < |purchases| ==> NonNegative(purchases[i])
    ensures GotKg(purchases, pid) >= 0.0 && GotUnit(purchases, pid) >= 0.0
  {
    SumForNonNegative(purchases, PurchaseProduct, pid, KgBought);
    SumForNonNegative(purchases, PurchaseProduct, pid, UnitsBought);
  }

  /** With no negative quantities bought, something is missing exactly when the verdict is incomplete. */
  lemma {:induction false} MissingIffIncomplete(items: seq<OrderItem>, purchases: seq<Purchase>)
    requires forall i :: 0 <= i < |purchases| ==> NonNegative(purchases[i])
    ensures MissingTags(items, purchases, Products(items)) != [] <==> Status(items, purchases) == Incomplete
  {
    var pids := Products(items);
    var tags := MissingTags(items, purchases, pids);
    StatusExact(items, purchases);
    MissingTagsExact(items, purchases, pids);
    if tags != [] {
      var t := tags[0];
      assert t in tags;
      GotNonNegative(purchases, t.productId);
      assert !ProductOk(items, purchases, t.productId);
    }
    if Status(items, purchases) == Incomplete {
      var pid :| pid in pids && !ProductOk(items, purchases, pid);
      assert Short(items, purchases, pid);
      assert MissingTag(items, purchases, pid) in tags;
    }
  }

  // ---------------------------------------------------------------------
  // Profit and the order summary
  // ---------------------------------------------------------------------

  /** `profit_amount = max(0, billed - cost)`. */
  function Profit(billed: real, cost: real): (r: real)
    ensures r >= 0.0 && r >= billed - cost
    ensures r == 0.0 || r == billed - cost
  {
    Max0(billed - cost)
  }

  /** `profit_pct`: profit as a percentage of what was billed, 0 when nothing was billed. */
  function ProfitPct(billed: real, cost: real): (r: real)
    ensures billed <= 0.0 ==> r == 0.0
    ensures r >= 0.0
    ensures billed > 0.0 && cost >= 0.0 ==> r <= 100.0
  {
    if billed > 0.0 then
      var p := Profit(billed, cost);
      PctBelow(p, billed);
      p / billed * 100.0
    else 0.0
  }

  lemma PctBelow(p: real, b: real)
    requires b > 0.0 && p >= 0.0
    ensures p / b * 100.0 >= 0.0
    ensures p <= b ==> p / b * 100.0 <= 100.0
  {
    assert (p / b) * b == p;
  }

  /** One entry of the order list. `bought_money` and `missing_money` are constant 0 and left out. */
  datatype OrderSummary = OrderSummary(
    billed: real, paid: real, due: real, status: Verdict,
    cost: real, profit: real, profitPct: real,
    bought: seq<Tag>, missing: seq<Tag>, byCustomer: map<int, real>)

  /** The summary of one order from its lines, its purchases and what was paid on its charges. */
  function Summarize(items: seq<OrderItem>, purchases: seq<Purchase>, paid: real): (r: OrderSummary)
    ensures r.due >= 0.0 && (r.due == 0.0 <==> paid >= r.billed)
    ensures r.profit >= 0.0 && r.profit >= r.billed - r.cost
    ensures r.billed <= 0.0 ==> r.profitPct == 0.0
  {
    var billed := Billed(items);
    var cost := Cost(purchases);
    OrderSummary(
      billed, paid, Outstanding(billed, paid), Status(items, purchases),
      cost, Profit(billed, cost), ProfitPct(billed, cost),
      BoughtTags(items, purchases, Products(items)), MissingTags(items, purchases, Products(items)),
      BilledByCustomer(items))
  }

  /** The summary of order `orderId`, from the rows the handler queries. */
  function OrderSummaryOf(items: Table<OrderItem>, purchases: Table<Purchase>, charges: Table<Charge>,
                          apps: Table<PaymentApplication>, orderId: int): OrderSummary
  {
    Summarize(
      Where(items, (it: OrderItem) => it.orderId == orderId),
      Where(purchases, (p: Purchase) => p.orderId == orderId),
      PaidFor(apps, Select(charges, (c: Charge) => c.orderId == orderId)))
  }

  // ---------------------------------------------------------------------
  // Customer summary
  // ---------------------------------------------------------------------

  /** What one charge bills here: `max(0, qty_to_charge * unit_price - discount)`. */
  function ChargeBilled(c: Charge): real
  {
    Max0(OrElse(c.chargedQty, c.qty) * c.unitPrice - c.discount)
  }

  function EntryBilled(e: (nat, Charge)): real { ChargeBilled(e.1) }

  /** `ch.order_id or 0`: the order a charge is listed under. */
  function OrderKey(e: (nat, Charge)): int { e.1.orderId }

  /** The ids of the charges, in order. */
  function IdsOf(es: seq<(nat, Charge)>): seq<nat>
  {
    if es == [] then [] else IdsOf(es[..|es| - 1]) + [es[|es| - 1].0]
  }

  /** The applications made to charge `id`. */
  function OnCharge(id: nat): PaymentApplication -> bool
  {
    (a: PaymentApplication) => a.chargeId == id
  }

  /** `paid_by_charge.get(id, 0)`: everything applied to one charge. */
  function PaidOn(apps: Table<PaymentApplication>, id: nat): real
  {
    SumWhere(apps, OnCharge(id), AmountOf)
  }

  function PaidOnEntry(apps: Table<PaymentApplication>): ((nat, Charge)) -> real
  {
    (e: (nat, Charge)) => PaidOn(apps, e.0)
  }

  /** One entry of a customer's `orders`: the order, and what its charges bill and were paid. */
  datatype OrderLine = OrderLine(orderId: int, billed: real, paid: real)

  function LineBilledOf(l: OrderLine): real { l.billed }
  function LinePaidOf(l: OrderLine): real { l.paid }

  /** The `orders` breakdown: one line per order, in order of first charge. */
  function OrderLines(es: seq<(nat, Charge)>, apps: Table<PaymentApplication>): (r: seq<OrderLine>)
    ensures |r| == |KeysOf(es, OrderKey)|
  {
    var ks := KeysOf(es, OrderKey);
    var bs := Totals(es, OrderKey, ks, EntryBilled);
    var ps := Totals(es, OrderKey, ks, PaidOnEntry(apps));
    seq(|ks|, i requires 0 <= i < |ks| => OrderLine(ks[i], bs[i], ps[i]))
  }

  datatype CustomerSummary = CustomerSummary(billed: real, paid: real, due: real, orders: Option<seq<OrderLine>>)

  /** A customer's summary from their charges (with ids); the breakdown only when asked for. */
  function Summary(es: seq<(nat, Charge)>, apps: Table<PaymentApplication>, includeOrders: bool): (r: CustomerSummary)
    ensures r.billed >= 0.0 && r.due >= 0.0
    ensures r.orders.Some? <==> includeOrders
  {
    var billed := SumOf(es, EntryBilled);
    SumOfNonNegative(es, EntryBilled);
    var paid := PaidFor(apps, IdsOf(es));
    CustomerSummary(billed, paid, Outstanding(billed, paid), if includeOrders then Some(OrderLines(es, apps)) else None)
  }

  lemma {:induction false} SumOfNonNegative<T>(s: seq<T>, f: T -> real)
    requires forall i :: 0 <= i < |s| ==> f(s[i]) >= 0.0
    ensures SumOf(s, f) >= 0.0
  {
    if s != [] {
      SumOfNonNegative(s[..|s| - 1], f);
    }
  }

  /** The summary of customer `customerId`, from the rows the handler queries. */
  function CustomerSummaryOf(charges: Table<Charge>, apps: Table<PaymentApplication>, customerId: int,
                             includeOrders: bool): CustomerSummary
  {
    Summary(Entries(charges, OfCustomer(customerId)), apps, includeOrders)
  }

  /** The charges of one customer. */
  function OfCustomer(customerId: int): Charge -> bool
  {
    (c: Charge) => c.customerId == customerId
  }

  /** Sums over charges of what each was paid. */
  function PaidAcross(m: map<nat, PaymentApplication>, n: nat, es: seq<(nat, Charge)>): real
  {
    if es == [] then 0.0
    else PaidAcross(m, n, es[..|es| - 1]) + SumBelow(m, n, OnCharge(es[|es| - 1].0), AmountOf)
  }

  lemma {:induction false} IdsOfExact(es: seq<(nat, Charge)>)
    ensures |IdsOf(es)| == |es|
    ensures forall i :: 0 <= i < |es| ==> IdsOf(es)[i] == es[i].0
  {
    if es != [] {
      IdsOfExact(es[..|es| - 1]);
    }
  }

  /** One more application adds its amount to the charge it names, once, if that charge is listed. */
  lemma {:induction false} PaidAcrossStep(m: map<nat, PaymentApplication>, n: nat, es: seq<(nat, Charge)>)
    requires Distinct(IdsOf(es))
    ensures PaidAcross(m, n + 1, es) ==
              PaidAcross(m, n, es) + (if n in m && m[n].chargeId in IdsOf(es) then m[n].amount else 0.0)
  {
    if es != [] {
      var init := es[..|es| - 1];
      assert Distinct(IdsOf(init)) by {
        IdsOfExact(es);
        IdsOfExact(init);
        forall i, j | 0 <= i < j < |IdsOf(init)| ensures IdsOf(init)[i] != IdsOf(init)[j] {
          assert IdsOf(es)[i] == IdsOf(init)[i] && IdsOf(es)[j] == IdsOf(init)[j];
        }
      }
      PaidAcrossStep(m, n, init);
      var last := es[|es| - 1].0;
      assert IdsOf(es) == IdsOf(init) + [last];
      if last in IdsOf(init) {
        var k :| 0 <= k < |IdsOf(init)| && IdsOf(init)[k] == last;
        assert IdsOf(es)[k] == IdsOf(es)[|IdsOf(es)| - 1];
        assert false;
      }
    }
  }

  lemma {:induction false} PaidAcrossZero(m: map<nat, PaymentApplication>, es: seq<(nat, Charge)>)
    ensures PaidAcross(m, 0, es) == 0.0
  {
    if es != [] {
      PaidAcrossZero(m, es[..|es| - 1]);
    }
  }

  /** Paying charge by charge sums to paying on any of them, when no charge is listed twice. */
  lemma {:induction false} PaidAcrossAll(m: map<nat, PaymentApplication>, n: nat, es: seq<(nat, Charge)>)
    requires Distinct(IdsOf(es))
    ensures PaidAcross(m, n, es) == SumBelow(m, n, OnAny(IdsOf(es)), AmountOf)
  {
    if n == 0 {
      PaidAcrossZero(m, es);
    } else {
      PaidAcrossAll(m, n - 1, es);
      PaidAcrossStep(m, n - 1, es);
    }
  }

  lemma {:induction false} PaidOnEntries(apps: Table<PaymentApplication>, es: seq<(nat, Charge)>)
    ensures SumOf(es, PaidOnEntry(apps)) == PaidAcross(apps.rows, apps.next, es)
  {
    if es != [] {
      PaidOnEntries(apps, es[..|es| - 1]);
    }
  }

  /** The orders of the breakdown, in order. */
  function OrderIds(lines: seq<OrderLine>): (r: seq<int>)
    ensures |r| == |lines|
    ensures forall i :: 0 <= i < |lines| ==> r[i] == lines[i].orderId
  {
    if lines == [] then [] else OrderIds(lines[..|lines| - 1]) + [lines[|lines| - 1].orderId]
  }

  /** The `orders` breakdown lists every order that has one of the charges, each once, and nothing else. */
  lemma {:induction false} OrderLinesKeys(es: seq<(nat, Charge)>, apps: Table<PaymentApplication>)
    ensures Distinct(OrderIds(OrderLines(es, apps)))
    ensures forall j :: 0 <= j < |es| ==> es[j].1.orderId in OrderIds(OrderLines(es, apps))
    ensures forall i :: 0 <= i < |OrderLines(es, apps)| ==>
              exists j :: 0 <= j < |es| && es[j].1.orderId == OrderLines(es, apps)[i].orderId
  {
    var ks := KeysOf(es, OrderKey);
    var lines := OrderLines(es, apps);
    KeysOfExact(es, OrderKey);
    assert OrderIds(lines) == ks;
    forall j | 0 <= j < |es| ensures es[j].1.orderId in ks {
      assert OrderKey(es[j]) == es[j].1.orderId;
    }
    forall i | 0 <= i < |lines| ensures exists j :: 0 <= j < |es| && es[j].1.orderId == lines[i].orderId {
      assert ks[i] in ks;
      var j :| 0 <= j < |es| && OrderKey(es[j]) == ks[i];
      assert es[j].1.orderId == lines[i].orderId;
    }
  }

  /** The breakdown's billed amounts add up to the customer's billed. */
  lemma {:induction false} OrderLinesBilled(es: seq<(nat, Charge)>, apps: Table<PaymentApplication>)
    ensures SumOf(OrderLines(es, apps), LineBilledOf) == SumOf(es, EntryBilled)
  {
    var ks := KeysOf(es, OrderKey);
    SumOfIsSum(OrderLines(es, apps), LineBilledOf, Totals(es, OrderKey, ks, EntryBilled));
    GroupSum(es, OrderKey, EntryBilled);
  }

  /** When no charge is listed twice, the breakdown's paid amounts add up to the customer's paid. */
  lemma {:induction false} OrderLinesPaid(es: seq<(nat, Charge)>, apps: Table<PaymentApplication>)
    requires Distinct(IdsOf(es))
    ensures SumOf(OrderLines(es, apps), LinePaidOf) == PaidFor(apps, IdsOf(es))
  {
    var ks := KeysOf(es, OrderKey);
    SumOfIsSum(OrderLines(es, apps), LinePaidOf, Totals(es, OrderKey, ks, PaidOnEntry(apps)));
    GroupSum(es, OrderKey, PaidOnEntry(apps));
    PaidOnEntries(apps, es);
    PaidAcrossAll(apps.rows, apps.next, es);
  }

  /** A customer's stored charges are listed once each, so the breakdown adds up to the customer's totals. */
  lemma {:induction false} CustomerOrdersAddUp(charges: Table<Charge>, apps: Table<PaymentApplication>, customerId: int)
    ensures CustomerSummaryOf(charges, apps, customerId, true).orders.Some?
    ensures SumOf(CustomerSummaryOf(charges, apps, customerId, true).orders.value, LineBilledOf)
            == CustomerSummaryOf(charges, apps, customerId, true).billed
    ensures SumOf(CustomerSummaryOf(charges, apps, customerId, true).orders.value, LinePaidOf)
            == CustomerSummaryOf(charges, apps, customerId, true).paid
  {
    var p := OfCustomer(customerId);
    var es := Entries(charges, p);
    assert CustomerSummaryOf(charges, apps, customerId, true) == Summary(es, apps, true);
    IdsOfExact(es);
    SelectIncreasing(charges, p);
    assert Distinct(IdsOf(es)) by {
      forall i, j | 0 <= i < j < |IdsOf(es)| ensures IdsOf(es)[i] != IdsOf(es)[j] {
        assert IdsOf(es)[i] == Select(charges, p)[i] && IdsOf(es)[j] == Select(charges, p)[j];
      }
    }
    OrderLinesBilled(es, apps);
    OrderLinesPaid(es, apps);
  }
}
