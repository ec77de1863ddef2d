/**
 * The admin KPI overview: billed total, costs, profit and averages over
 * the orders of a date window; the share of customers who ordered more
 * than once; and the active, historic and new-this-month customer counts.
 * Days are day numbers; today and the first day of the current month
 * are parameters.
 */
module Kpis {
  import opened Common
  import opened Records
  import opened Tables
  import opened Db

  // ---------------------------------------------------------------------
  // Request parameters

  /** A query-string integer read with `int(...)`: missing, unreadable, or given. */
  datatype IntArg = Missing | Bad | Given(n: int)

  /** `int(request.args.get(key, d))`; None where `int` raises. */
  function IntOr(a: IntArg, d: int): (r: Option<int>)
    ensures r.None? <==> a.Bad?
  {
    match a
    case Missing => Some(d)
    case Bad => None
    case Given(n) => Some(n)
  }

  /**
   * The optional bounds of the window, as `parse_date_params` returns
   * them: a bound that is missing or does not read as a date is None.
   */
  datatype Window = Window(from: Option<int>, to: Option<int>)

  predicate InWindow(w: Window, day: int)
  {
    (w.from.None? || day >= w.from.value) && (w.to.None? || day <= w.to.value)
  }

  // ---------------------------------------------------------------------
  // The folds

  /** The ids of the orders whose day lies in the window. */
  function WindowOrders(orders: Table<Order>, w: Window): (ids: set<int>)
    ensures forall k :: k in ids <==> k >= 0 && k as nat in orders.rows && InWindow(w, orders.rows[k as nat].created)
  {
    set k | k in orders.rows && InWindow(w, orders.rows[k].created) :: k as int
  }

  /** The ids of the orders whose day satisfies `p`: the join `Charge.order_id == Order.id` with a filter on the order. */
  function OrdersWhere(orders: Table<Order>, p: int -> bool): (ids: set<int>)
    ensures forall k :: k in ids <==> k >= 0 && k as nat in orders.rows && p(orders.rows[k as nat].created)
  {
    set k | k in orders.rows && p(orders.rows[k].created) :: k as int
  }

  function OnOrdersLive(ids: set<int>): Charge -> bool
  {
    (c: Charge) => c.orderId in ids && c.status != "cancelled"
  }

  function OnOrders(ids: set<int>): Charge -> bool
  {
    (c: Charge) => c.orderId in ids
  }

  function PurchaseOn(ids: set<int>): Purchase -> bool
  {
    (p: Purchase) => p.orderId in ids
  }

  /** `charged_qty or qty or 0`: a missing or zero charged quantity falls back to the ordered one. */
  function BilledQty(c: Charge): (q: real)
    ensures c.chargedQty.Some? && c.chargedQty.value != 0.0 ==> q == c.chargedQty.value
    ensures c.chargedQty.None? || c.chargedQty.value == 0.0 ==> q == c.qty
  {
    if c.chargedQty.Some? && c.chargedQty.value != 0.0 then c.chargedQty.value else c.qty
  }

  function Billed(c: Charge): real
  {
    BilledQty(c) * c.unitPrice
  }

  /**
   * The cost of a purchase: its total when that is set and not zero,
   * otherwise its unit price times the quantity in its charged unit
   * (`kg` when none), a missing number counting as zero.
   */
  function PurchaseCost(p: Purchase): (cost: real)
    ensures p.priceTotal.Some? && p.priceTotal.value != 0.0 ==> cost == p.priceTotal.value
    ensures (p.priceTotal.None? || p.priceTotal.value == 0.0) && (p.chargedUnit == "" || p.chargedUnit == "kg")
            ==> cost == OrZero(p.pricePerUnit) * OrZero(p.qtyKg)
    ensures (p.priceTotal.None? || p.priceTotal.value == 0.0) && p.chargedUnit != "" && p.chargedUnit != "kg"
            ==> cost == OrZero(p.pricePerUnit) * OrZero(p.qtyUnit)
  {
    if p.priceTotal.Some? && p.priceTotal.value != 0.0 then p.priceTotal.value
    else
      var unit := if p.chargedUnit == "" then "kg" else p.chargedUnit;
      var qty := if unit == "kg" then OrZero(p.qtyKg) else OrZero(p.qtyUnit);
      OrZero(p.pricePerUnit) * qty
  }

  /** The distinct non-zero customer ids of some charges (`if c.customer_id:`). */
  function CustomerSet(cs: seq<Charge>): set<int>
  {
    set c | c in cs && c.customerId != 0 :: c.customerId
  }

  /** `count(distinct customer_id)` over the charges satisfying `p`. */
  function DistinctCustomers(charges: Table<Charge>, p: Charge -> bool): (r: set<int>)
    ensures forall x :: x in r <==> exists k :: k in charges.rows && p(charges.rows[k]) && charges.rows[k].customerId == x
  {
    set k | k in charges.rows && p(charges.rows[k]) :: charges.rows[k].customerId
  }

  /** The distinct orders of one customer among the charges satisfying `p`. */
  function OrdersOfCustomer(charges: Table<Charge>, p: Charge -> bool, x: int): set<int>
  {
    set k | k in charges.rows && p(charges.rows[k]) && charges.rows[k].customerId == x :: charges.rows[k].orderId
  }

  /** The customers with more than one distinct order among the charges satisfying `p`. */
  function Repeaters(charges: Table<Charge>, p: Charge -> bool): (r: set<int>)
    ensures r <= DistinctCustomers(charges, p)
  {
    set x | x in DistinctCustomers(charges, p) && |OrdersOfCustomer(charges, p, x)| > 1
  }

  /** `a / b * 100`, or 0 when `b` is 0. */
  function Percent(a: real, b: real): real
  {
    if b > 0.0 then a / b * 100.0 else 0.0
  }

  // ---------------------------------------------------------------------
  // The report

  datatype Ticket = Ticket(
    total: real, profit: real, costs: real, orderCount: nat, customerCount: nat,
    perOrder: real, perCustomer: real, marginPercent: real)

  datatype Repurchase = Repurchase(days: int, customers: nat, repeaters: nat, ratePercent: real)

  datatype Customers = Customers(active: nat, activeDays: int, historic: nat, newThisMonth: nat, activityPercent: real)

  datatype Overview = Overview(ticket: Ticket, repurchase: Repurchase, customers: Customers, window: Window)

  /** The report, or the 500 of an unhandled error. */
  datatype OverviewResult = OverviewFailed | Report(overview: Overview)

  /** The figures of the window's orders, or all zeros when the window has none. */
  function TicketOf(orders: Table<Order>, charges: Table<Charge>, purchases: Table<Purchase>, w: Window): Ticket
  {
    var ids := WindowOrders(orders, w);
    if ids == {} then Ticket(0.0, 0.0, 0.0, 0, 0, 0.0, 0.0, 0.0)
    else
      var cs := Where(charges, OnOrdersLive(ids));
      var billed := SumOf(cs, Billed);
      var costs := SumOf(Where(purchases, PurchaseOn(ids)), PurchaseCost);
      var n := |CustomerSet(cs)|;
      Ticket(billed, billed - costs, costs, |ids|, n,
             billed / |ids| as real, if n > 0 then billed / n as real else 0.0,
             Percent(billed - costs, billed))
  }

  function RepurchaseOf(orders: Table<Order>, charges: Table<Charge>, w: Window, days: int): Repurchase
  {
    var live := OnOrdersLive(WindowOrders(orders, w));
    var total := |DistinctCustomers(charges, live)|;
    var repeat := |Repeaters(charges, live)|;
    Repurchase(days, total, repeat, Percent(repeat as real, total as real))
  }

  function CustomersOf(orders: Table<Order>, charges: Table<Charge>, today: int, monthStart: int, days: int): Customers
  {
    var active := |DistinctCustomers(charges, OnOrdersLive(OrdersWhere(orders, d => d >= today - days)))|;
    var historic := |DistinctCustomers(charges, _ => true)|;
    var thisMonth := DistinctCustomers(charges, OnOrders(OrdersWhere(orders, d => d >= monthStart)));
    var before := DistinctCustomers(charges, OnOrders(OrdersWhere(orders, d => d < monthStart)));
    Customers(active, days, historic, |thisMonth - before|, Percent(active as real, historic as real))
  }

  /**
   * `GET /admin/kpis/overview`, reading each order's day from its
   * creation time: an unreadable `recompra_days` or `activo_days` is an
   * unhandled error; otherwise the three groups of figures.
   */
  function OverviewOf(orders: Table<Order>, charges: Table<Charge>, purchases: Table<Purchase>,
                      w: Window, repurchaseDays: IntArg, activeDays: IntArg, today: int, monthStart: int): (r: OverviewResult)
    ensures r.OverviewFailed? <==> repurchaseDays.Bad? || activeDays.Bad?
  {
    var rd := IntOr(repurchaseDays, 15);
    var ad := IntOr(activeDays, 15);
    if rd.None? || ad.None? then OverviewFailed
    else
      Report(Overview(TicketOf(orders, charges, purchases, w), RepurchaseOf(orders, charges, w, rd.value),
                      CustomersOf(orders, charges, today, monthStart, ad.value), w))
  }

  /** The columns of the order model. */
  datatype OrderColumn = Id | CreatedAt | Notes | Title | Status

  /** The attribute names the order model declares. */
  const OrderColumnNames: set<string> := {"id", "created_at", "notes", "title", "status"}

  /** The column an attribute name of the order model refers to, if any. */
  function OrderColumnNamed(name: string): (c: Option<OrderColumn>)
    ensures c.Some? <==> name in OrderColumnNames
  {
    if name == "id" then Some(Id)
    else if name == "created_at" then Some(CreatedAt)
    else if name == "notes" then Some(Notes)
    else if name == "title" then Some(Title)
    else if name == "status" then Some(Status)
    else None
  }

  /**
   * The handler as written: it filters orders on `Order.date` in the
   * window (when a bound is given) and, on every call, in the active,
   * this-month and earlier-month queries. The order model has no such
   * column, so building those queries raises and every call is a 500.
   */
  function OverviewAsWritten(orders: Table<Order>, charges: Table<Charge>, purchases: Table<Purchase>,
                             w: Window, repurchaseDays: IntArg, activeDays: IntArg, today: int, monthStart: int): (r: OverviewResult)
    ensures r == OverviewFailed
  {
    if OrderColumnNamed("date").None? then OverviewFailed
    else OverviewOf(orders, charges, purchases, w, repurchaseDays, activeDays, today, monthStart)
  }

  // ---------------------------------------------------------------------
  // The handler's loops

  /** The `total_costs` loop over the window's purchases. */
  method TotalCosts(ps: seq<Purchase>) returns (total: real)
    ensures total == SumOf(ps, PurchaseCost)
  {
    total := 0.0;
    var i := 0;
    while i < |ps|
      invariant 0 <= i <= |ps|
      invariant total == SumOf(ps[..i], PurchaseCost)
    {
      PrefixSnoc(ps, i);
      total := total + PurchaseCost(ps[i]);
      i := i + 1;
    }
    PrefixAll(ps);
  }

  /** The `unique_customers` loop over the window's live charges. */
  method UniqueCustomers(cs: seq<Charge>) returns (unique: set<int>)
    ensures unique == CustomerSet(cs)
  {
    unique := {};
    var i := 0;
    while i < |cs|
      invariant 0 <= i <= |cs|
      invariant unique == CustomerSet(cs[..i])
    {
      PrefixSnoc(cs, i);
      if cs[i].customerId != 0 {
        unique := unique + {cs[i].customerId};
      }
      i := i + 1;
    }
    PrefixAll(cs);
  }

  /** The ticket figures as the handler computes them, the two loops included. */
  method ComputeTicket(db: Store, w: Window) returns (ticket: Ticket)
    ensures ticket == TicketOf(db.orders, db.charges, db.purchases, w)
  {
    var ids := WindowOrders(db.orders, w);
    if ids == {} {
      return Ticket(0.0, 0.0, 0.0, 0, 0, 0.0, 0.0, 0.0);
    }
    var cs := Where(db.charges, OnOrdersLive(ids));
    var billed := SumOf(cs, Billed);
    var costs := TotalCosts(Where(db.purchases, PurchaseOn(ids)));
    var profit := billed - costs;
    var unique := UniqueCustomers(cs);
    var n := |unique|;
    ticket := Ticket(billed, profit, costs, |ids|, n,
                     billed / |ids| as real, if n > 0 then billed / n as real else 0.0,
                     Percent(profit, billed));
  }

  /** The overview as the handler computes it. */
  method ComputeOverview(db: Store, w: Window, repurchaseDays: IntArg, activeDays: IntArg, today: int, monthStart: int)
    returns (r: OverviewResult)
    ensures r == OverviewOf(db.orders, db.charges, db.purchases, w, repurchaseDays, activeDays, today, monthStart)
  {
    var ticket := ComputeTicket(db, w);
    var rd := IntOr(repurchaseDays, 15);
    if rd.None? {
      return OverviewFailed;
    }
    var repurchase := RepurchaseOf(db.orders, db.charges, w, rd.value);
    var ad := IntOr(activeDays, 15);
    if ad.None? {
      return OverviewFailed;
    }
    var customers := CustomersOf(db.orders, db.charges, today, monthStart, ad.value);
    r := Report(Overview(ticket, repurchase, customers, w));
  }

  // ---------------------------------------------------------------------
  // Properties

  lemma {:induction false} SubsetCard<T>(a: set<T>, b: set<T>)
    requires a <= b
    ensures |a| <= |b|
  {
    assert b == a + (b - a);
  }

  /** A share of a whole, as a percentage, lies between 0 and 100. */
  lemma PercentBounds(a: nat, b: nat)
    requires a <= b
    ensures 0.0 <= Percent(a as real, b as real) <= 100.0
    ensures Percent(a as real, b as real) == 100.0 <==> b > 0 && a == b
  {
    if b > 0 {
      var q := a as real / b as real;
      assert q * b as real == a as real;
      if q > 1.0 {
        assert q * b as real > 1.0 * b as real;
      }
    }
  }

  /**
   * The repurchase rate and the activity rate are percentages: the repeat
   * customers are among the window's customers, and the active customers
   * among all customers ever charged.
   */
  lemma {:induction false} RatesBounded(orders: Table<Order>, charges: Table<Charge>, w: Window, days: int, today: int, monthStart: int, activeDays: int)
    ensures var r := RepurchaseOf(orders, charges, w, days);
            r.repeaters <= r.customers && 0.0 <= r.ratePercent <= 100.0
    ensures var c := CustomersOf(orders, charges, today, monthStart, activeDays);
            c.active <= c.historic && 0.0 <= c.activityPercent <= 100.0
  {
    var live := OnOrdersLive(WindowOrders(orders, w));
    SubsetCard(Repeaters(charges, live), DistinctCustomers(charges, live));
    PercentBounds(|Repeaters(charges, live)|, |DistinctCustomers(charges, live)|);
    var act := DistinctCustomers(charges, OnOrdersLive(OrdersWhere(orders, d => d >= today - activeDays)));
    var all := DistinctCustomers(charges, _ => true);
    assert act <= all;
    SubsetCard(act, all);
    PercentBounds(|act|, |all|);
  }

  /** Two of the customer's charges satisfying `p` belong to different orders. */
  predicate TwoOrders(charges: Table<Charge>, p: Charge -> bool, x: int)
  {
    exists i, j :: i in charges.rows && j in charges.rows && p(charges.rows[i]) && p(charges.rows[j])
                   && charges.rows[i].customerId == x && charges.rows[j].customerId == x
                   && charges.rows[i].orderId != charges.rows[j].orderId
  }

  /** A customer repurchased exactly when two of their charges belong to different orders. */
  lemma {:induction false} RepeaterIff(charges: Table<Charge>, p: Charge -> bool, x: int)
    ensures x in Repeaters(charges, p) <==> TwoOrders(charges, p, x)
  {
    var os := OrdersOfCustomer(charges, p, x);
    if x in Repeaters(charges, p) {
      var a :| a in os;
      assert |os - {a}| > 0;
      var b :| b in os - {a};
      var i :| i in charges.rows && p(charges.rows[i]) && charges.rows[i].customerId == x && charges.rows[i].orderId == a;
      var j :| j in charges.rows && p(charges.rows[j]) && charges.rows[j].customerId == x && charges.rows[j].orderId == b;
      assert TwoOrders(charges, p, x);
    }
    if TwoOrders(charges, p, x) {
      var i, j :| i in charges.rows && j in charges.rows && p(charges.rows[i]) && p(charges.rows[j])
                  && charges.rows[i].customerId == x && charges.rows[j].customerId == x
                  && charges.rows[i].orderId != charges.rows[j].orderId;
      var pair := {charges.rows[i].orderId, charges.rows[j].orderId};
      assert charges.rows[i].orderId in os && charges.rows[j].orderId in os;
      SubsetCard(pair, os);
      assert x in DistinctCustomers(charges, p);
    }
  }


  /**
   * A window without orders reports all zeros; one with orders reports
   * its order count, an average per order that multiplies back to the
   * billed total, and a margin of 0 when nothing was billed and of 100
   * when something was billed at no cost.
   */
  lemma TicketFigures(orders: Table<Order>, charges: Table<Charge>, purchases: Table<Purchase>, w: Window)
    ensures var t := TicketOf(orders, charges, purchases, w);
            (WindowOrders(orders, w) == {} ==> t == Ticket(0.0, 0.0, 0.0, 0, 0, 0.0, 0.0, 0.0))
            && t.orderCount == |WindowOrders(orders, w)|
            && t.profit == t.total - t.costs
            && (t.orderCount > 0 ==> t.perOrder * t.orderCount as real == t.total)
            && (t.customerCount > 0 ==> t.perCustomer * t.customerCount as real == t.total)
            && (t.total <= 0.0 ==> t.marginPercent == 0.0)
            && (t.total > 0.0 && t.costs == 0.0 ==> t.marginPercent == 100.0)
  {
    var t := TicketOf(orders, charges, purchases, w);
    if t.total > 0.0 && t.costs == 0.0 {
      assert t.profit == t.total;
      assert t.total / t.total == 1.0;
    }
  }

  /** New customers this month bought this month and never before, so they are at most the customers ever charged. */
  lemma {:induction false} NewAreHistoric(orders: Table<Order>, charges: Table<Charge>, today: int, monthStart: int, days: int)
    ensures CustomersOf(orders, charges, today, monthStart, days).newThisMonth
            <= CustomersOf(orders, charges, today, monthStart, days).historic
  {
    var thisMonth := DistinctCustomers(charges, OnOrders(OrdersWhere(orders, d => d >= monthStart)));
    var before := DistinctCustomers(charges, OnOrders(OrdersWhere(orders, d => d < monthStart)));
    var all := DistinctCustomers(charges, _ => true);
    assert thisMonth - before <= all;
    SubsetCard(thisMonth - before, all);
  }

  /**
   * The customer count of the ticket (the loop, which skips a zero id)
   * and of the repurchase figures (the query, which does not) agree when
   * no charge carries a zero customer id.
   */
  lemma {:induction false} CustomerCountsAgree(orders: ValidTable<Order>, charges: ValidTable<Charge>, purchases: Table<Purchase>, w: Window, days: int)
    requires forall k :: k in charges.rows ==> charges.rows[k].customerId != 0
    ensures TicketOf(orders, charges, purchases, w).customerCount == RepurchaseOf(orders, charges, w, days).customers
  {
    var ids := WindowOrders(orders, w);
    var live := OnOrdersLive(ids);
    if ids == {} {
      assert DistinctCustomers(charges, live) == {} by {
        forall k | k in charges.rows ensures !live(charges.rows[k]) {
        }
      }
    } else {
      var cs := Where(charges, live);
      SelectExact(charges, live);
      assert CustomerSet(cs) == DistinctCustomers(charges, live) by {
        forall x | x in DistinctCustomers(charges, live) ensures x in CustomerSet(cs) {
          var k :| k in charges.rows && live(charges.rows[k]) && charges.rows[k].customerId == x;
          var i :| 0 <= i < |Select(charges, live)| && Select(charges, live)[i] == k;
          assert cs[i] == charges.rows[k];
        }
      }
    }
  }

  /**
   * With the handler as written every call is a 500, while reading the
   * day from the creation time reports the figures: one order of day 10
   * with one live charge of 2 kg at 3.0 bills 6.0 to one customer.
   */
  lemma OrderDateMissing()
    ensures var orders := Table(map[1 := Order("", "draft", 10)], 2);
            var charges := Table(map[1 := Charge(7, 1, 1, 1, 1, 2.0, None, "kg", 3.0, 0.0, "pending", 6.0)], 2);
            var purchases := Empty<Purchase>();
            var w := Window(None, None);
            OverviewAsWritten(orders, charges, purchases, w, Missing, Missing, 20, 1) == OverviewFailed
            && OverviewOf(orders, charges, purchases, w, Missing, Missing, 20, 1).Report?
            && OverviewOf(orders, charges, purchases, w, Missing, Missing, 20, 1).overview.ticket.total == 6.0
  {
    var orders := Table(map[1 := Order("", "draft", 10)], 2);
    var c := Charge(7, 1, 1, 1, 1, 2.0, None, "kg", 3.0, 0.0, "pending", 6.0);
    var charges := Table(map[1 := c], 2);
    var w := Window(None, None);
    OverviewTicket(orders, charges, Empty<Purchase>(), w, Missing, Missing, 20, 1);
    OneChargeBilled(orders, c, charges);
  }

  /** With readable day arguments the report's ticket is the window's ticket. */
  lemma OverviewTicket(orders: Table<Order>, charges: Table<Charge>, purchases: Table<Purchase>,
                       w: Window, repurchaseDays: IntArg, activeDays: IntArg, today: int, monthStart: int)
    requires !repurchaseDays.Bad? && !activeDays.Bad?
    ensures OverviewOf(orders, charges, purchases, w, repurchaseDays, activeDays, today, monthStart).Report?
    ensures OverviewOf(orders, charges, purchases, w, repurchaseDays, activeDays, today, monthStart).overview.ticket
            == TicketOf(orders, charges, purchases, w)
  {
  }

  /** One order of day 10 with one live charge of 2 kg at 3.0 bills 6.0. */
  lemma OneChargeBilled(orders: Table<Order>, c: Charge, charges: Table<Charge>)
    requires orders == Table(map[1 := Order("", "draft", 10)], 2)
    requires c == Charge(7, 1, 1, 1, 1, 2.0, None, "kg", 3.0, 0.0, "pending", 6.0) && charges == Table(map[1 := c], 2)
    ensures TicketOf(orders, charges, Empty<Purchase>(), Window(None, None)).total == 6.0
  {
    var ids := WindowOrders(orders, Window(None, None));
    assert ids == {1};
    var live := OnOrdersLive(ids);
    assert Select(charges, live) == [1] by {
      assert SelectBelow(charges.rows, 1, live) == [];
    }
    var cs := Where(charges, live);
    assert cs == [c];
    assert SumOf(cs, Billed) == 6.0 by {
      assert cs[..0] == [];
    }
  }
}
