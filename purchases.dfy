/**
 * The purchase endpoint over the store. Each stage is a method over the
 * tables it reads and writes: record the purchase and its price
 * observation, file the surplus lot, allocate to the listed customers'
 * lines, auto-complete the remaining lines, and project the order's lines
 * and charges onto the charged unit. The endpoint reads the store, runs
 * the stages in turn and writes the new tables back.
 */
module Purchases {
  import opened Common
  import opened Records
  import opened Tables
  import opened Db
  import opened Pricing
  import opened PurchaseRules

  datatype Outcome = Rejected(reason: Rejection) | Created(purchaseId: nat)

  /** The lines of one order and product: `OrderItem.query.filter_by(order_id=..., product_id=...)`. */
  function OrderLines(items: Table<OrderItem>, orderId: int, productId: int): seq<nat>
  {
    Select(items, (it: OrderItem) => it.orderId == orderId && it.productId == productId)
  }

  /** The order's lines of the product are exactly the ones selected. */
  lemma {:induction false} OrderLinesExact(items: Table<OrderItem>, orderId: int, productId: int)
    ensures var ids := OrderLines(items, orderId, productId);
            (forall i :: 0 <= i < |ids| ==> ids[i] in items.rows
                                            && items.rows[ids[i]].orderId == orderId && items.rows[ids[i]].productId == productId)
            && (forall k :: (k in items.rows && k < items.next && items.rows[k].orderId == orderId
                             && items.rows[k].productId == productId) ==> k in ids)
  {
    SelectExact(items, (it: OrderItem) => it.orderId == orderId && it.productId == productId);
  }

  /** Requested quantity of an order and product in one unit (a missing unit reads as kg). */
  function NeedIn(items: Table<OrderItem>, orderId: int, productId: int, unit: string): real
  {
    SumWhere(items, (it: OrderItem) => it.orderId == orderId && it.productId == productId && RequestedUnit(it) == unit,
             (it: OrderItem) => it.qty)
  }

  /** Direct kg bought for an order and product by the purchases with ids below `n`. */
  function BoughtKg(purchases: Table<Purchase>, n: nat, orderId: int, productId: int): real
  {
    SumBelow(purchases.rows, n, (p: Purchase) => p.orderId == orderId && p.productId == productId,
             (p: Purchase) => OrZero(p.qtyKg))
  }

  /** Direct units bought for an order and product by the purchases with ids below `n`. */
  function BoughtUnits(purchases: Table<Purchase>, n: nat, orderId: int, productId: int): real
  {
    SumBelow(purchases.rows, n, (p: Purchase) => p.orderId == orderId && p.productId == productId,
             (p: Purchase) => OrZero(p.qtyUnit))
  }

  /**
   * The completeness guard. The new purchase row is already in the session
   * when the purchases are queried, and the session flushes it before the
   * query, so the purchases counted include it and its quantities are then
   * added once more.
   */
  predicate Blocked(items: Table<OrderItem>, purchases: Table<Purchase>, req: PurchaseRequest)
  {
    var flushed := Insert(purchases, NewPurchase(req));
    GuardRejects(req.orderId,
                 NeedIn(items, req.orderId, req.productId, "kg"),
                 BoughtKg(flushed, flushed.next, req.orderId, req.productId) + OrZero(req.qtyKg),
                 NeedIn(items, req.orderId, req.productId, "unit"),
                 BoughtUnits(flushed, flushed.next, req.orderId, req.productId) + OrZero(req.qtyUnit),
                 req.customers)
  }

  /** The flushed row makes the guard count the request's own quantities twice. */
  lemma {:induction false} GuardCountsRequestTwice(purchases: Table<Purchase>, req: PurchaseRequest)
    ensures var flushed := Insert(purchases, NewPurchase(req));
            BoughtKg(flushed, flushed.next, req.orderId, req.productId) + OrZero(req.qtyKg)
              == BoughtKg(purchases, purchases.next, req.orderId, req.productId) + 2.0 * OrZero(req.qtyKg)
            && BoughtUnits(flushed, flushed.next, req.orderId, req.productId) + OrZero(req.qtyUnit)
              == BoughtUnits(purchases, purchases.next, req.orderId, req.productId) + 2.0 * OrZero(req.qtyUnit)
  {
    var flushed := Insert(purchases, NewPurchase(req));
    var mine := (p: Purchase) => p.orderId == req.orderId && p.productId == req.productId;
    SumBelowFrame(purchases.rows, flushed.rows, purchases.next, mine, (p: Purchase) => OrZero(p.qtyKg));
    SumBelowFrame(purchases.rows, flushed.rows, purchases.next, mine, (p: Purchase) => OrZero(p.qtyUnit));
  }

  /**
   * A first purchase of half of a kg-only demand, naming nobody, passes the
   * guard: the doubled count reads it as complete.
   */
  lemma {:induction false} HalfPurchasePassesGuard(items: Table<OrderItem>, purchases: Table<Purchase>, req: PurchaseRequest)
    requires BoughtKg(purchases, purchases.next, req.orderId, req.productId) == 0.0
    requires NeedIn(items, req.orderId, req.productId, "unit") == 0.0
    requires 2.0 * OrZero(req.qtyKg) >= NeedIn(items, req.orderId, req.productId, "kg")
    ensures !Blocked(items, purchases, req)
  {
    GuardCountsRequestTwice(purchases, req);
  }

  /** The stored purchase row. */
  function NewPurchase(req: PurchaseRequest): Purchase
  {
    Purchase(req.orderId, req.productId, req.qtyKg, req.qtyUnit, req.chargedUnit,
             req.eqQtyKg, req.eqQtyUnit, req.priceTotal, req.pricePerUnit, StoredCustomers(req.customers))
  }

  /** Everything allocated so far to one line. */
  function Allocated(allocs: Table<Allocation>, itemId: nat): real
  {
    SumWhere(allocs, (a: Allocation) => a.orderItemId == itemId, (a: Allocation) => a.qty)
  }

  function FromPurchase(purchaseId: nat): Allocation -> bool
  {
    (a: Allocation) => a.purchaseId == purchaseId
  }

  function AllocQty(a: Allocation): real
  {
    a.qty
  }

  /** Everything allocated so far from one purchase. */
  function AllocatedFrom(allocs: Table<Allocation>, purchaseId: nat): real
  {
    SumWhere(allocs, FromPurchase(purchaseId), AllocQty)
  }

  /** `max(0, qty - allocated)`: what a line still needs (an id with no line needs nothing). */
  function NeedOf(items: Table<OrderItem>, allocs: Table<Allocation>, id: nat): real
  {
    if id in items.rows then Max0(items.rows[id].qty - Allocated(allocs, id)) else 0.0
  }

  /** The pending need of each of the lines. */
  function LineNeeds(items: Table<OrderItem>, allocs: Table<Allocation>, ids: seq<nat>): (r: seq<real>)
    ensures |r| == |ids| && NonNegative(r)
    ensures forall i :: 0 <= i < |ids| ==> r[i] == NeedOf(items, allocs, ids[i])
  {
    seq(|ids|, i requires 0 <= i < |ids| => NeedOf(items, allocs, ids[i]))
  }

  /**
   * The purchase quantity in its charged unit: `qty_kg` when charged in kg
   * (None when missing, where the endpoint's `float(None)` raises) and
   * `qty_unit or 0` otherwise.
   */
  function BoughtInChargedUnit(req: PurchaseRequest): Option<real>
  {
    if req.chargedUnit == "kg" then req.qtyKg else Some(OrZero(req.qtyUnit))
  }

  /** One allocation per positive take, in line order. */
  function AllocRecords(purchaseId: nat, unit: string, ids: seq<nat>, takes: seq<real>): (recs: seq<Allocation>)
    requires |ids| == |takes|
    ensures |recs| <= |ids|
  {
    if ids == [] then []
    else
      AllocRecords(purchaseId, unit, ids[..|ids| - 1], takes[..|takes| - 1])
      + (if takes[|takes| - 1] > 0.0 then [Allocation(purchaseId, ids[|ids| - 1], takes[|takes| - 1], unit)] else [])
  }

  /** Every record is of this purchase and unit and carries a positive quantity. */
  lemma {:induction false} AllocRecordsPositive(purchaseId: nat, unit: string, ids: seq<nat>, takes: seq<real>)
    requires |ids| == |takes|
    ensures forall r :: r in AllocRecords(purchaseId, unit, ids, takes) ==>
              r.purchaseId == purchaseId && r.unit == unit && r.qty > 0.0
  {
    if ids != [] {
      AllocRecordsPositive(purchaseId, unit, ids[..|ids| - 1], takes[..|takes| - 1]);
    }
  }

  lemma {:induction false} NoRecordsFromZeros(purchaseId: nat, unit: string, ids: seq<nat>, takes: seq<real>)
    requires |ids| == |takes|
    requires forall i :: 0 <= i < |takes| ==> takes[i] <= 0.0
    ensures AllocRecords(purchaseId, unit, ids, takes) == []
  {
    if ids != [] {
      NoRecordsFromZeros(purchaseId, unit, ids[..|ids| - 1], takes[..|takes| - 1]);
    }
  }

  /** Lines with no take at the end add no records. */
  lemma {:induction false} RecordsOfPrefix(purchaseId: nat, unit: string, ids: seq<nat>, takes: seq<real>, i: nat)
    requires |ids| == |takes| && i <= |ids|
    requires forall j :: i <= j < |takes| ==> takes[j] <= 0.0
    ensures AllocRecords(purchaseId, unit, ids, takes) == AllocRecords(purchaseId, unit, ids[..i], takes[..i])
  {
    if i < |ids| {
      RecordsOfPrefix(purchaseId, unit, ids[..|ids| - 1], takes[..|takes| - 1], i);
      assert ids[..|ids| - 1][..i] == ids[..i];
      assert takes[..|takes| - 1][..i] == takes[..i];
    } else {
      assert ids[..i] == ids && takes[..i] == takes;
    }
  }

  /** The customer-list stage's lines: a customer, this order and product, requested in the charged unit. */
  function NamedLines(items: Table<OrderItem>, req: PurchaseRequest): seq<nat>
  {
    Select(items, (it: OrderItem) => it.orderId == req.orderId && it.productId == req.productId
                                        && it.customerId != 0 && RequestedUnit(it) == req.chargedUnit)
  }

  /** The auto-complete stage's lines: this order and product, stored unit equal to the charged unit. */
  function ChargedUnitLines(items: Table<OrderItem>, req: PurchaseRequest): seq<nat>
  {
    Select(items, (it: OrderItem) => it.orderId == req.orderId && it.productId == req.productId
                                        && it.unit == req.chargedUnit)
  }

  /** The allocations the customer-list stage records. */
  function NamedStage(items: Table<OrderItem>, allocs: Table<Allocation>,
                      req: PurchaseRequest, purchaseId: nat): seq<Allocation>
  {
    var bought := BoughtInChargedUnit(req);
    if req.orderId == 0 || CustomerList(req.customers) == [] || bought.None? then []
    else
      var ids := NamedLines(items, req);
      AllocRecords(purchaseId, req.chargedUnit, ids, FillInOrder(LineNeeds(items, allocs, ids), bought.value))
  }

  /** The allocations the auto-complete stage records, against what the purchase has left. */
  function AutoStage(items: Table<OrderItem>, allocs: Table<Allocation>,
                     req: PurchaseRequest, purchaseId: nat): seq<Allocation>
  {
    var bought := BoughtInChargedUnit(req);
    if req.orderId == 0 || bought.None? then []
    else
      var ids := ChargedUnitLines(items, req);
      var needs := LineNeeds(items, allocs, ids);
      AllocRecords(purchaseId, req.chargedUnit, ids, AutoFill(needs, bought.value - AllocatedFrom(allocs, purchaseId)))
  }

  /** The surplus lot of this purchase, reckoned against the purchases before it. */
  function StageLot(items: Table<OrderItem>, purchases: Table<Purchase>,
                    req: PurchaseRequest, purchaseId: nat): Option<InventoryLot>
  {
    SurplusLot(req, purchaseId,
               NeedIn(items, req.orderId, req.productId, "kg"), NeedIn(items, req.orderId, req.productId, "unit"),
               BoughtKg(purchases, purchaseId, req.orderId, req.productId),
               BoughtUnits(purchases, purchaseId, req.orderId, req.productId))
  }

  /** The lines of the order and product, projected onto the purchase's charged unit. */
  function ProjectedItems(items: map<nat, OrderItem>, req: PurchaseRequest): map<nat, OrderItem>
  {
    var ratio := Ratio(req.chargedUnit, req.qtyKg, req.qtyUnit, req.eqQtyKg, req.eqQtyUnit);
    map k | k in items :: if items[k].orderId == req.orderId && items[k].productId == req.productId
                          then Projected(items[k], req.chargedUnit, ratio) else items[k]
  }

  /** A charge of a projected line takes the line's charged quantity and is repriced. */
  function RepricedCharges(charges: map<nat, Charge>, items: map<nat, OrderItem>, req: PurchaseRequest): map<nat, Charge>
  {
    map k | k in charges :: if Touched(charges[k], items, req)
                            then Repriced(charges[k], items[charges[k].orderItemId].chargedQty) else charges[k]
  }

  predicate Touched(c: Charge, items: map<nat, OrderItem>, req: PurchaseRequest)
  {
    c.orderItemId >= 0 && c.orderItemId as nat in items
    && items[c.orderItemId].orderId == req.orderId && items[c.orderItemId].productId == req.productId
  }

  /**
   * After projection every line of the order and product carries the
   * purchase's charged unit, and every charge of such a line carries the
   * line's charged quantity and a total that follows it.
   */
  lemma {:induction false} ProjectionKeepsChargesPriced(charges: map<nat, Charge>, items: map<nat, OrderItem>, req: PurchaseRequest)
    ensures var items' := ProjectedItems(items, req);
            var charges' := RepricedCharges(charges, items', req);
            (forall k :: k in items' && items'[k].orderId == req.orderId && items'[k].productId == req.productId ==>
               items'[k].chargedUnit == req.chargedUnit && items'[k].chargedQty.Some?)
            && (forall k :: k in charges' && Touched(charges'[k], items', req) ==>
                  charges'[k].chargedQty == items'[charges'[k].orderItemId].chargedQty && Priced(charges'[k]))
  {
  }

  /** Projecting the lines again with the same purchase changes nothing. */
  lemma {:induction false} ProjectionIdempotentOnItems(items: map<nat, OrderItem>, req: PurchaseRequest)
    ensures ProjectedItems(ProjectedItems(items, req), req) == ProjectedItems(items, req)
  {
    var items' := ProjectedItems(items, req);
    var ratio := Ratio(req.chargedUnit, req.qtyKg, req.qtyUnit, req.eqQtyKg, req.eqQtyUnit);
    forall k | k in items' ensures ProjectedItems(items', req)[k] == items'[k] {
      if items[k].orderId == req.orderId && items[k].productId == req.productId {
        ProjectionIdempotent(items[k], req.chargedUnit, ratio);
      }
    }
  }

  /** Repricing the charges again against the same lines changes nothing. */
  lemma {:induction false} RepricingIdempotent(charges: map<nat, Charge>, items: map<nat, OrderItem>, req: PurchaseRequest)
    ensures RepricedCharges(RepricedCharges(charges, items, req), items, req) == RepricedCharges(charges, items, req)
  {
    var once := RepricedCharges(charges, items, req);
    forall k | k in once ensures RepricedCharges(once, items, req)[k] == once[k] {
      assert once[k].orderItemId == charges[k].orderItemId;
    }
  }

  /** Running the projection stage again with the same purchase changes nothing. */
  lemma {:induction false} ProjectionIdempotentOnStore(charges: map<nat, Charge>, items: map<nat, OrderItem>, req: PurchaseRequest)
    ensures var items' := ProjectedItems(items, req);
            ProjectedItems(items', req) == items'
            && RepricedCharges(RepricedCharges(charges, items', req), items', req) == RepricedCharges(charges, items', req)
  {
    ProjectionIdempotentOnItems(items, req);
    RepricingIdempotent(charges, ProjectedItems(items, req), req);
  }

  /** The cost paid and the product's current sale price, in the charged unit, dated today. */
  function NewPriceRecord(catalog: Table<CatalogPrice>, req: PurchaseRequest, today: int): PriceRecord
  {
    PriceRecord(req.productId, today, req.pricePerUnit, LatestSalePrice(catalog, req.productId), req.chargedUnit)
  }

  lemma {:induction false} AllocRecordsSnoc(purchaseId: nat, unit: string, ids: seq<nat>, takes: seq<real>, id: nat, t: real)
    requires |ids| == |takes|
    ensures AllocRecords(purchaseId, unit, ids + [id], takes + [t])
            == AllocRecords(purchaseId, unit, ids, takes) + (if t > 0.0 then [Allocation(purchaseId, id, t, unit)] else [])
  {
    assert (ids + [id])[..|ids|] == ids;
    assert (takes + [t])[..|takes|] == takes;
  }

  /** Recording one more line's take: an insert when it is positive, nothing otherwise. */
  /** The allocation a positive take stores; a zero take stores nothing. */
  function Record(allocs: Table<Allocation>, purchaseId: nat, lineId: nat, take: real, unit: string): Table<Allocation>
  {
    if take > 0.0 then Insert(allocs, Allocation(purchaseId, lineId, take, unit)) else allocs
  }

  lemma {:induction false} RecordStep(t: Table<Allocation>, purchaseId: nat, unit: string, ids: seq<nat>, takes: seq<real>, id: nat, x: real)
    requires |ids| == |takes|
    ensures InsertAll(t, AllocRecords(purchaseId, unit, ids + [id], takes + [x]))
            == Record(InsertAll(t, AllocRecords(purchaseId, unit, ids, takes)), purchaseId, id, x, unit)
  {
    AllocRecordsSnoc(purchaseId, unit, ids, takes, id, x);
    var recs := AllocRecords(purchaseId, unit, ids, takes);
    if x > 0.0 {
      InsertAllSnoc(t, recs, Allocation(purchaseId, id, x, unit));
    } else {
      assert recs + [] == recs;
    }
  }

  /** What a pass gives the line with pending need `need` when `rest` remains. */
  function Take(need: real, rest: real): (t: real)
    ensures t >= 0.0 && t <= Max0(need)
    ensures need > 0.0 && rest > 0.0 ==> t == MinReal(rest, need)
  {
    var take := if need <= 0.0 then 0.0 else MinReal(rest, need);
    if take > 0.0 then take else 0.0
  }

  /**
   * Where a pass stands after `i` lines: `takes` are the first `i` takes of
   * the whole pass, `rest` is what remains, and the allocations stored so
   * far are one per positive take.
   */
  ghost predicate PassAt(pending: seq<real>, remain: real, ids: seq<nat>, purchaseId: nat, unit: string,
                         start: Table<Allocation>, i: nat, takes: seq<real>, rest: real, allocs: Table<Allocation>)
  {
    i <= |pending| && |ids| == |pending| && |takes| == i
    && takes + FillInOrder(pending[i..], rest) == FillInOrder(pending, remain)
    && rest == remain - Sum(takes)
    && allocs == InsertAll(start, AllocRecords(purchaseId, unit, ids[..i], takes))
  }

  lemma {:induction false} PassStart(pending: seq<real>, remain: real, ids: seq<nat>, purchaseId: nat, unit: string, start: Table<Allocation>)
    requires |ids| == |pending|
    ensures PassAt(pending, remain, ids, purchaseId, unit, start, 0, [], remain, start)
  {
    assert pending[0..] == pending;
  }

  lemma {:induction false} PassStep(pending: seq<real>, remain: real, ids: seq<nat>, purchaseId: nat, unit: string,
                 start: Table<Allocation>, i: nat, takes: seq<real>, rest: real, allocs: Table<Allocation>)
    requires PassAt(pending, remain, ids, purchaseId, unit, start, i, takes, rest, allocs) && i < |pending|
    ensures var take := Take(pending[i], rest);
            PassAt(pending, remain, ids, purchaseId, unit, start, i + 1, takes + [take], rest - take,
                   Record(allocs, purchaseId, ids[i], take, unit))
  {
    var take := Take(pending[i], rest);
    PassStepTakes(pending, remain, i, takes, rest);
    SumSnoc(takes, take);
    PassStepAllocs(ids, purchaseId, unit, start, i, takes, take, allocs);
  }

  lemma {:induction false} PassStepTakes(pending: seq<real>, remain: real, i: nat, takes: seq<real>, rest: real)
    requires i < |pending| && takes + FillInOrder(pending[i..], rest) == FillInOrder(pending, remain)
    ensures var take := Take(pending[i], rest);
            (takes + [take]) + FillInOrder(pending[i + 1..], rest - take) == FillInOrder(pending, remain)
  {
    var take := Take(pending[i], rest);
    var tail := FillInOrder(pending[i + 1..], rest - take);
    FillFrom(pending, i, rest);
    SnocAssoc(takes, take, tail);
  }

  lemma {:induction false} PassStepAllocs(ids: seq<nat>, purchaseId: nat, unit: string, start: Table<Allocation>,
                                          i: nat, takes: seq<real>, take: real, allocs: Table<Allocation>)
    requires i < |ids| && |takes| == i
    requires allocs == InsertAll(start, AllocRecords(purchaseId, unit, ids[..i], takes))
    ensures Record(allocs, purchaseId, ids[i], take, unit)
            == InsertAll(start, AllocRecords(purchaseId, unit, ids[..i + 1], takes + [take]))
  {
    assert ids[..i + 1] == ids[..i] + [ids[i]];
    RecordStep(start, purchaseId, unit, ids[..i], takes, ids[i], take);
  }

  /** The pass from line `i` on: line `i` takes first, the lines after it share what is left. */
  lemma FillFrom(pending: seq<real>, i: nat, rest: real)
    requires i < |pending|
    ensures FillInOrder(pending[i..], rest)
            == [Take(pending[i], rest)] + FillInOrder(pending[i + 1..], rest - Take(pending[i], rest))
  {
    assert pending[i..][1..] == pending[i + 1..];
  }

  lemma SnocAssoc(xs: seq<real>, x: real, ys: seq<real>)
    ensures xs + ([x] + ys) == (xs + [x]) + ys
  {
  }

  lemma SumSnoc(xs: seq<real>, x: real)
    ensures Sum(xs + [x]) == Sum(xs) + x
  {
    SumAppend(xs, [x]);
    assert [x][..0] == [];
  }

  lemma {:induction false} PassEnd(pending: seq<real>, remain: real, ids: seq<nat>, purchaseId: nat, unit: string,
                start: Table<Allocation>, takes: seq<real>, rest: real, allocs: Table<Allocation>)
    requires PassAt(pending, remain, ids, purchaseId, unit, start, |pending|, takes, rest, allocs)
    ensures takes == FillInOrder(pending, remain) && rest == remain - Sum(takes)
    ensures allocs == InsertAll(start, AllocRecords(purchaseId, unit, ids, takes))
  {
    assert pending[|pending|..] == [];
    assert ids[..|ids|] == ids;
  }

  /** The takes, the remainder and the allocations after the pass has walked the first `i` lines. */
  function PassAfter(pending: seq<real>, remain: real, ids: seq<nat>, purchaseId: nat, unit: string,
                     start: Table<Allocation>, i: nat): (seq<real>, real, Table<Allocation>)
    requires i <= |pending| && |ids| == |pending|
  {
    if i == 0 then ([], remain, start)
    else
      var before := PassAfter(pending, remain, ids, purchaseId, unit, start, i - 1);
      var take := Take(pending[i - 1], before.1);
      (before.0 + [take], before.1 - take, Record(before.2, purchaseId, ids[i - 1], take, unit))
  }

  lemma {:induction false} PassAfterAt(pending: seq<real>, remain: real, ids: seq<nat>, purchaseId: nat, unit: string,
                                       start: Table<Allocation>, i: nat)
    requires i <= |pending| && |ids| == |pending|
    ensures var s := PassAfter(pending, remain, ids, purchaseId, unit, start, i);
            PassAt(pending, remain, ids, purchaseId, unit, start, i, s.0, s.1, s.2)
  {
    if i == 0 {
      PassStart(pending, remain, ids, purchaseId, unit, start);
    } else {
      PassAfterAt(pending, remain, ids, purchaseId, unit, start, i - 1);
      PassAfterStep(pending, remain, ids, purchaseId, unit, start, i - 1);
    }
  }

  lemma PassAfterStep(pending: seq<real>, remain: real, ids: seq<nat>, purchaseId: nat, unit: string,
                      start: Table<Allocation>, j: nat)
    requires j < |pending| && |ids| == |pending|
    requires var s := PassAfter(pending, remain, ids, purchaseId, unit, start, j);
             PassAt(pending, remain, ids, purchaseId, unit, start, j, s.0, s.1, s.2)
    ensures var s := PassAfter(pending, remain, ids, purchaseId, unit, start, j + 1);
            PassAt(pending, remain, ids, purchaseId, unit, start, j + 1, s.0, s.1, s.2)
  {
    var s := PassAfter(pending, remain, ids, purchaseId, unit, start, j);
    PassStep(pending, remain, ids, purchaseId, unit, start, j, s.0, s.1, s.2);
  }

  /** One walk over the lines, each taking what it still needs from what remains. */
  method FillPass(allocs: Table<Allocation>, ids: seq<nat>, pending: seq<real>, remain: real, purchaseId: nat, unit: string)
    returns (left: seq<real>, rest: real, allocs': Table<Allocation>)
    requires |ids| == |pending|
    ensures var takes := FillInOrder(pending, remain);
            left == Residual(pending, takes) && rest == remain - Sum(takes)
            && allocs' == InsertAll(allocs, AllocRecords(purchaseId, unit, ids, takes))
  {
    rest := remain;
    allocs' := allocs;
    var takes: seq<real> := [];
    var i := 0;
    while i < |ids|
      invariant i <= |ids|
      invariant (takes, rest, allocs') == PassAfter(pending, remain, ids, purchaseId, unit, allocs, i)
    {
      var take := Take(pending[i], rest);
      takes, rest, allocs' := takes + [take], rest - take, Record(allocs', purchaseId, ids[i], take, unit);
      i := i + 1;
    }
    PassAfterAt(pending, remain, ids, purchaseId, unit, allocs, i);
    PassEnd(pending, remain, ids, purchaseId, unit, allocs, takes, rest, allocs');
    left := Residual(pending, takes);
  }

  /**
   * Where stage 3 stands after `k` walks: before the first nothing has
   * happened; after it, the first walk's records are stored and a later
   * walk finds the same pending need and purchase left.
   */
  ghost predicate WalksAt(needs: seq<real>, bought: real, ids: seq<nat>, purchaseId: nat, unit: string,
                          start: Table<Allocation>, k: nat, pending: seq<real>, remain: real, allocs: Table<Allocation>)
  {
    |ids| == |needs| && NonNegative(needs) && |pending| == |ids|
    && (k == 0 ==> allocs == start && pending == needs && remain == bought)
    && (k > 0 ==> allocs == InsertAll(start, AllocRecords(purchaseId, unit, ids, FillInOrder(needs, bought)))
                  && pending == Residual(needs, FillInOrder(needs, bought))
                  && remain == bought - Sum(FillInOrder(needs, bought)))
  }

  lemma {:induction false} WalksStep(needs: seq<real>, bought: real, ids: seq<nat>, purchaseId: nat, unit: string,
                  start: Table<Allocation>, k: nat, pending: seq<real>, remain: real, allocs: Table<Allocation>)
    requires WalksAt(needs, bought, ids, purchaseId, unit, start, k, pending, remain, allocs)
    ensures var takes := FillInOrder(pending, remain);
            WalksAt(needs, bought, ids, purchaseId, unit, start, k + 1, Residual(pending, takes), remain - Sum(takes),
                    InsertAll(allocs, AllocRecords(purchaseId, unit, ids, takes)))
  {
    var takes := FillInOrder(pending, remain);
    if k > 0 {
      LaterPassIsEmpty(needs, bought, purchaseId, unit, ids, pending, remain);
      assert InsertAll(allocs, []) == allocs;
    } else {
      assert pending == needs && remain == bought && allocs == start;
    }
  }

  lemma {:induction false} WalksEnd(needs: seq<real>, bought: real, ids: seq<nat>, purchaseId: nat, unit: string,
                 start: Table<Allocation>, k: nat, pending: seq<real>, remain: real, allocs: Table<Allocation>)
    requires WalksAt(needs, bought, ids, purchaseId, unit, start, k, pending, remain, allocs)
    requires k > 0 || remain <= 0.0
    ensures allocs == InsertAll(start, AllocRecords(purchaseId, unit, ids, FillInOrder(needs, bought)))
  {
    if k == 0 {
      ZeroPass(needs, bought);
      NoRecordsFromZeros(purchaseId, unit, ids, FillInOrder(needs, bought));
    }
  }

  /**
   * Stage 3, allocation to the listed customers' lines. The endpoint walks
   * the lines once per listed name; only the first walk can give anything.
   * Pending need is kept per line.
   */
  method AllocateToNamedCustomers(items: Table<OrderItem>, allocs: Table<Allocation>, req: PurchaseRequest, purchaseId: nat)
    returns (allocs': Table<Allocation>)
    ensures allocs' == InsertAll(allocs, NamedStage(items, allocs, req, purchaseId))
  {
    allocs' := allocs;
    var names := CustomerList(req.customers);
    var bought := BoughtInChargedUnit(req);
    if req.orderId == 0 || names == [] || bought.None? {
      return;
    }
    var ids := NamedLines(items, req);
    var pending := LineNeeds(items, allocs, ids);
    ghost var needs := pending;
    var remain := bought.value;
    var k := 0;
    while k < |names|
      invariant k <= |names|
      invariant WalksAt(needs, bought.value, ids, purchaseId, req.chargedUnit, allocs, k, pending, remain, allocs')
    {
      if remain <= 0.0 {
        break;
      }
      WalksStep(needs, bought.value, ids, purchaseId, req.chargedUnit, allocs, k, pending, remain, allocs');
      pending, remain, allocs' := FillPass(allocs', ids, pending, remain, purchaseId, req.chargedUnit);
      k := k + 1;
    }
    WalksEnd(needs, bought.value, ids, purchaseId, req.chargedUnit, allocs, k, pending, remain, allocs');
  }

  /** After the first walk, a second one over what is left records nothing and takes nothing. */
  lemma {:induction false} LaterPassIsEmpty(needs: seq<real>, bought: real, purchaseId: nat, unit: string, ids: seq<nat>,
                                             pending: seq<real>, remain: real)
    requires NonNegative(needs) && |ids| == |needs|
    requires pending == Residual(needs, FillInOrder(needs, bought)) && remain == bought - Sum(FillInOrder(needs, bought))
    ensures var again := FillInOrder(pending, remain);
            AllocRecords(purchaseId, unit, ids, again) == [] && Sum(again) == 0.0 && Residual(pending, again) == pending
  {
    SecondPassGivesNothing(needs, bought);
    var again := FillInOrder(pending, remain);
    assert AllZero(again);
    NoRecordsFromZeros(purchaseId, unit, ids, again);
    ZeroSum(again);
    ResidualOfZeros(pending, again);
  }

  lemma ResidualOfZeros(pending: seq<real>, takes: seq<real>)
    requires |takes| == |pending| && AllZero(takes)
    ensures Residual(pending, takes) == pending
  {
  }

  lemma {:induction false} ZeroSum(xs: seq<real>)
    requires forall i :: 0 <= i < |xs| ==> xs[i] == 0.0
    ensures Sum(xs) == 0.0
  {
    if xs != [] {
      ZeroSum(xs[..|xs| - 1]);
    }
  }

  /**
   * Stage 4, auto-complete: when what the purchase has left covers all
   * pending need of the lines in the charged unit, each such line is
   * allocated exactly its need.
   */
  method AutoComplete(items: Table<OrderItem>, allocs: Table<Allocation>, req: PurchaseRequest, purchaseId: nat)
    returns (allocs': Table<Allocation>)
    ensures allocs' == InsertAll(allocs, AutoStage(items, allocs, req, purchaseId))
  {
    allocs' := allocs;
    var bought := BoughtInChargedUnit(req);
    if req.orderId == 0 || bought.None? {
      return;
    }
    var ids := ChargedUnitLines(items, req);
    var needs := LineNeeds(items, allocs, ids);
    var available := bought.value - AllocatedFrom(allocs, purchaseId);
    var total := TotalPending(needs);
    if !(available >= total && total > 0.0) {
      NoRecordsFromZeros(purchaseId, req.chargedUnit, ids, AutoFill(needs, available));
      return;
    }
    allocs' := AllocateNeeds(allocs, ids, needs, total, purchaseId, req.chargedUnit);
  }

  /**
   * Where the stage-4 walk stands after `i` lines: `remain` is the need of
   * the lines not yet visited, and each visited line with need has its
   * allocation stored.
   */
  ghost predicate WalkAt(ids: seq<nat>, needs: seq<real>, purchaseId: nat, unit: string,
                         start: Table<Allocation>, i: nat, remain: real, allocs: Table<Allocation>)
  {
    i <= |needs| && |ids| == |needs| && NonNegative(needs)
    && remain == Sum(needs[i..])
    && allocs == InsertAll(start, AllocRecords(purchaseId, unit, ids[..i], needs[..i]))
  }

  lemma {:induction false} WalkStep(ids: seq<nat>, needs: seq<real>, purchaseId: nat, unit: string,
                 start: Table<Allocation>, i: nat, remain: real, allocs: Table<Allocation>)
    requires WalkAt(ids, needs, purchaseId, unit, start, i, remain, allocs) && i < |needs|
    ensures MinReal(needs[i], remain) == needs[i]
    ensures needs[i] > 0.0 ==>
              WalkAt(ids, needs, purchaseId, unit, start, i + 1, remain - needs[i],
                     Insert(allocs, Allocation(purchaseId, ids[i], needs[i], unit)))
    ensures needs[i] <= 0.0 ==> WalkAt(ids, needs, purchaseId, unit, start, i + 1, remain, allocs)
  {
    TailSplit(needs, i);
    assert ids[..i + 1] == ids[..i] + [ids[i]] && needs[..i + 1] == needs[..i] + [needs[i]];
    RecordStep(start, purchaseId, unit, ids[..i], needs[..i], ids[i], needs[i]);
  }

  /** Once nothing remains, the lines still to visit have no need and the walk is complete. */
  lemma {:induction false} WalkDone(ids: seq<nat>, needs: seq<real>, purchaseId: nat, unit: string,
                 start: Table<Allocation>, i: nat, remain: real, allocs: Table<Allocation>)
    requires WalkAt(ids, needs, purchaseId, unit, start, i, remain, allocs) && (i == |needs| || remain <= 0.0)
    ensures allocs == InsertAll(start, AllocRecords(purchaseId, unit, ids, needs))
  {
    if i < |needs| {
      NoTailNeed(needs[i..]);
      forall j | i <= j < |needs| ensures needs[j] <= 0.0 {
        assert needs[j] == needs[i..][j - i];
      }
      RecordsOfPrefix(purchaseId, unit, ids, needs, i);
    } else {
      assert ids[..i] == ids && needs[..i] == needs;
    }
  }

  /** `total_pending`: the needs added up in line order. */
  method TotalPending(needs: seq<real>) returns (total: real)
    ensures total == Sum(needs)
  {
    total := 0.0;
    var i := 0;
    while i < |needs|
      invariant 0 <= i <= |needs| && total == Sum(needs[..i])
    {
      assert needs[..i + 1][..i] == needs[..i];
      total := total + needs[i];
      i := i + 1;
    }
    assert needs[..|needs|] == needs;
  }

  /** The allocation walk of stage 4: every line with need takes all of it. */
  method AllocateNeeds(allocs: Table<Allocation>, ids: seq<nat>, needs: seq<real>, total: real, purchaseId: nat, unit: string)
    returns (allocs': Table<Allocation>)
    requires |ids| == |needs| && NonNegative(needs) && total == Sum(needs)
    ensures allocs' == InsertAll(allocs, AllocRecords(purchaseId, unit, ids, needs))
  {
    allocs' := allocs;
    var remain := total;
    var i := 0;
    assert needs[0..] == needs;
    assert WalkAt(ids, needs, purchaseId, unit, allocs, 0, remain, allocs');
    while i < |ids|
      invariant i <= |ids|
      invariant WalkAt(ids, needs, purchaseId, unit, allocs, i, remain, allocs')
    {
      WalkStep(ids, needs, purchaseId, unit, allocs, i, remain, allocs');
      var need := needs[i];
      if need > 0.0 {
        var take := MinReal(need, remain);
        allocs' := Insert(allocs', Allocation(purchaseId, ids[i], take, unit));
        remain := remain - take;
        if remain <= 0.0 {
          WalkDone(ids, needs, purchaseId, unit, allocs, i + 1, remain, allocs');
          return;
        }
      }
      i := i + 1;
    }
    WalkDone(ids, needs, purchaseId, unit, allocs, i, remain, allocs');
  }

  /** The lines under `ks` projected onto the charged unit. */
  function ProjectedAmong(items: map<nat, OrderItem>, ks: seq<nat>, unit: string, ratio: Option<real>): map<nat, OrderItem>
    requires ratio.Some? ==> ratio.value > 0.0
  {
    map k | k in items :: if k in ks then Projected(items[k], unit, ratio) else items[k]
  }

  lemma {:induction false} ProjectedAmongSnoc(items: map<nat, OrderItem>, ks: seq<nat>, k: nat, unit: string, ratio: Option<real>)
    requires k in items && k !in ks && (ratio.Some? ==> ratio.value > 0.0)
    ensures ProjectedAmong(items, ks + [k], unit, ratio) == ProjectedAmong(items, ks, unit, ratio)[k := Projected(items[k], unit, ratio)]
  {
  }

  lemma {:induction false} ProjectedAmongLines(items: Table<OrderItem>, req: PurchaseRequest)
    requires WellFormed(items)
    ensures ProjectedAmong(items.rows, OrderLines(items, req.orderId, req.productId), req.chargedUnit,
                           Ratio(req.chargedUnit, req.qtyKg, req.qtyUnit, req.eqQtyKg, req.eqQtyUnit))
            == ProjectedItems(items.rows, req)
  {
    var ids := OrderLines(items, req.orderId, req.productId);
    OrderLinesExact(items, req.orderId, req.productId);
    forall k | k in items.rows
      ensures k in ids <==> items.rows[k].orderId == req.orderId && items.rows[k].productId == req.productId
    {
    }
  }

  /** Stage 5a: every line of the order and product is projected onto the charged unit. */
  method ProjectLines(items: ValidTable<OrderItem>, req: PurchaseRequest) returns (items': ValidTable<OrderItem>)
    ensures items' == Table(ProjectedItems(items.rows, req), items.next)
  {
    var ratio := Ratio(req.chargedUnit, req.qtyKg, req.qtyUnit, req.eqQtyKg, req.eqQtyUnit);
    items' := items;
    var ids := OrderLines(items, req.orderId, req.productId);
    OrderLinesExact(items, req.orderId, req.productId);
    var i := 0;
    assert ProjectedAmong(items.rows, ids[..0], req.chargedUnit, ratio) == items.rows;
    while i < |ids|
      invariant 0 <= i <= |ids|
      invariant items' == Table(ProjectedAmong(items.rows, ids[..i], req.chargedUnit, ratio), items.next)
    {
      var k := ids[i];
      assert ids[..i + 1] == ids[..i] + [k];
      SelectedOnce(items, (it: OrderItem) => it.orderId == req.orderId && it.productId == req.productId, i);
      ProjectedAmongSnoc(items.rows, ids[..i], k, req.chargedUnit, ratio);
      items' := Update(items', k, Projected(items'.rows[k], req.chargedUnit, ratio));
      i := i + 1;
    }
    assert ids[..i] == ids;
    ProjectedAmongLines(items, req);
  }

  /** The charges of line `lineId` repriced to the charged quantity `q`. */
  function RepricedLine(charges: map<nat, Charge>, lineId: nat, q: Option<real>): map<nat, Charge>
  {
    map k | k in charges :: if charges[k].orderItemId == lineId then Repriced(charges[k], q) else charges[k]
  }

  /** The charge is repriced if its line is one of `done`. */
  function RepricedIf(c: Charge, items: map<nat, OrderItem>, done: seq<nat>): Charge
  {
    if c.orderItemId >= 0 && c.orderItemId as nat in done && c.orderItemId as nat in items
    then Repriced(c, items[c.orderItemId].chargedQty) else c
  }

  /** The charges whose line is among `done` repriced. */
  function RepricedLines(charges: map<nat, Charge>, items: map<nat, OrderItem>, done: seq<nat>): map<nat, Charge>
  {
    map k | k in charges :: RepricedIf(charges[k], items, done)
  }

  /** The charges of one order line, in id order. */
  function LineCharges(charges: Table<Charge>, lineId: nat): seq<nat>
  {
    Select(charges, (c: Charge) => c.orderItemId == lineId)
  }

  /** The line's charges are exactly the ones selected. */
  lemma {:induction false} LineChargesExact(charges: Table<Charge>, lineId: nat)
    ensures var cids := LineCharges(charges, lineId);
            (forall i :: 0 <= i < |cids| ==> cids[i] in charges.rows && charges.rows[cids[i]].orderItemId == lineId)
            && (forall k :: k in charges.rows && k < charges.next && charges.rows[k].orderItemId == lineId ==> k in cids)
  {
    SelectExact(charges, (c: Charge) => c.orderItemId == lineId);
  }

  /** The charges under `ks` repriced to `q`. */
  function RepricedAmong(charges: map<nat, Charge>, ks: seq<nat>, q: Option<real>): map<nat, Charge>
  {
    map k | k in charges :: if k in ks then Repriced(charges[k], q) else charges[k]
  }

  lemma {:induction false} RepricedAmongSnoc(charges: map<nat, Charge>, ks: seq<nat>, k: nat, q: Option<real>)
    requires k in charges && k !in ks
    ensures RepricedAmong(charges, ks + [k], q) == RepricedAmong(charges, ks, q)[k := Repriced(charges[k], q)]
  {
  }

  lemma {:induction false} RepricedAmongLine(charges: Table<Charge>, lineId: nat, q: Option<real>)
    requires WellFormed(charges)
    ensures RepricedAmong(charges.rows, LineCharges(charges, lineId), q) == RepricedLine(charges.rows, lineId, q)
  {
    var cids := LineCharges(charges, lineId);
    LineChargesExact(charges, lineId);
    forall k | k in charges.rows ensures k in cids <==> charges.rows[k].orderItemId == lineId {
    }
  }

  /** Reprices every charge of one line. */
  method RepriceLine(charges: ValidTable<Charge>, lineId: nat, q: Option<real>) returns (charges': ValidTable<Charge>)
    ensures charges' == Table(RepricedLine(charges.rows, lineId, q), charges.next)
  {
    charges' := charges;
    var cids := LineCharges(charges, lineId);
    LineChargesExact(charges, lineId);
    var j := 0;
    assert RepricedAmong(charges.rows, cids[..0], q) == charges.rows;
    while j < |cids|
      invariant 0 <= j <= |cids|
      invariant charges' == Table(RepricedAmong(charges.rows, cids[..j], q), charges.next)
    {
      var k := cids[j];
      assert cids[..j + 1] == cids[..j] + [k];
      SelectedOnce(charges, (c: Charge) => c.orderItemId == lineId, j);
      RepricedAmongSnoc(charges.rows, cids[..j], k, q);
      charges' := Update(charges', k, Repriced(charges'.rows[k], q));
      j := j + 1;
    }
    assert cids[..j] == cids;
    RepricedAmongLine(charges, lineId, q);
  }

  lemma {:induction false} RepricedLinesStep(charges: map<nat, Charge>, items: map<nat, OrderItem>, done: seq<nat>, lineId: nat)
    requires lineId in items && lineId !in done
    ensures RepricedLine(RepricedLines(charges, items, done), lineId, items[lineId].chargedQty)
         == RepricedLines(charges, items, done + [lineId])
  {
    var before := RepricedLines(charges, items, done);
    var after := RepricedLine(before, lineId, items[lineId].chargedQty);
    forall k | k in charges ensures after[k] == RepricedLines(charges, items, done + [lineId])[k] {
      assert before[k].orderItemId == charges[k].orderItemId;
    }
  }

  lemma {:induction false} RepricedLinesAll(charges: map<nat, Charge>, items: Table<OrderItem>, req: PurchaseRequest)
    requires WellFormed(items)
    ensures RepricedLines(charges, items.rows, OrderLines(items, req.orderId, req.productId))
            == RepricedCharges(charges, items.rows, req)
  {
    var ids := OrderLines(items, req.orderId, req.productId);
    OrderLinesExact(items, req.orderId, req.productId);
    forall k | k in charges
      ensures RepricedLines(charges, items.rows, ids)[k] == RepricedCharges(charges, items.rows, req)[k]
    {
      var c := charges[k];
      assert Touched(c, items.rows, req) <==> c.orderItemId >= 0 && c.orderItemId as nat in ids;
    }
  }

  /** Stage 5b: the charges of the projected lines take the new charged quantity. */
  method RepriceCharges(charges: ValidTable<Charge>, items: ValidTable<OrderItem>, req: PurchaseRequest)
    returns (charges': ValidTable<Charge>)
    ensures charges' == Table(RepricedCharges(charges.rows, items.rows, req), charges.next)
  {
    charges' := charges;
    var ids := OrderLines(items, req.orderId, req.productId);
    OrderLinesExact(items, req.orderId, req.productId);
    var i := 0;
    assert RepricedLines(charges.rows, items.rows, ids[..0]) == charges.rows;
    while i < |ids|
      invariant 0 <= i <= |ids|
      invariant charges' == Table(RepricedLines(charges.rows, items.rows, ids[..i]), charges.next)
    {
      assert ids[..i + 1] == ids[..i] + [ids[i]];
      SelectedOnce(items, (it: OrderItem) => it.orderId == req.orderId && it.productId == req.productId, i);
      RepricedLinesStep(charges.rows, items.rows, ids[..i], ids[i]);
      charges' := RepriceLine(charges', ids[i], items.rows[ids[i]].chargedQty);
      i := i + 1;
    }
    assert ids[..i] == ids;
    RepricedLinesAll(charges.rows, items, req);
  }

  /** Stages 3 and 4: the listed customers' lines first, then auto-complete on what they left. */
  method AllocatePurchase(items: Table<OrderItem>, allocs: Table<Allocation>, req: PurchaseRequest, purchaseId: nat)
    returns (allocs': Table<Allocation>)
    ensures var named := InsertAll(allocs, NamedStage(items, allocs, req, purchaseId));
            allocs' == InsertAll(named, AutoStage(items, named, req, purchaseId))
  {
    var named := AllocateToNamedCustomers(items, allocs, req, purchaseId);
    allocs' := AutoComplete(items, named, req, purchaseId);
  }

  /** The quantities of some allocations, added up in order. */
  function QtyOf(recs: seq<Allocation>): real
  {
    if recs == [] then 0.0 else QtyOf(recs[..|recs| - 1]) + recs[|recs| - 1].qty
  }

  /** Storing allocations of a purchase raises what it has allocated by their quantities. */
  lemma {:induction false} AllocatedFromInsertAll(t: Table<Allocation>, recs: seq<Allocation>, purchaseId: nat)
    requires forall r :: r in recs ==> r.purchaseId == purchaseId
    ensures AllocatedFrom(InsertAll(t, recs), purchaseId) == AllocatedFrom(t, purchaseId) + QtyOf(recs)
  {
    if recs != [] {
      var init := recs[..|recs| - 1];
      assert forall r :: r in init ==> r in recs;
      AllocatedFromInsertAll(t, init, purchaseId);
      SumWhereInsert(InsertAll(t, init), recs[|recs| - 1], FromPurchase(purchaseId), AllocQty);
    }
  }

  /** The records of non-negative takes carry exactly their total. */
  lemma {:induction false} RecordsQty(purchaseId: nat, unit: string, ids: seq<nat>, takes: seq<real>)
    requires |ids| == |takes| && NonNegative(takes)
    ensures QtyOf(AllocRecords(purchaseId, unit, ids, takes)) == Sum(takes)
  {
    if ids != [] {
      var init := AllocRecords(purchaseId, unit, ids[..|ids| - 1], takes[..|takes| - 1]);
      var t := takes[|takes| - 1];
      RecordsQty(purchaseId, unit, ids[..|ids| - 1], takes[..|takes| - 1]);
      if t > 0.0 {
        var recs := init + [Allocation(purchaseId, ids[|ids| - 1], t, unit)];
        assert recs[..|recs| - 1] == init;
      } else {
        assert init + [] == init;
      }
    }
  }

  /**
   * A stage's takes, stored: the purchase's allocated total grows by
   * exactly their sum.
   */
  lemma {:induction false} StageRaisesAllocated(t: Table<Allocation>, purchaseId: nat, unit: string, ids: seq<nat>, takes: seq<real>)
    requires |ids| == |takes| && NonNegative(takes)
    ensures AllocatedFrom(InsertAll(t, AllocRecords(purchaseId, unit, ids, takes)), purchaseId)
            == AllocatedFrom(t, purchaseId) + Sum(takes)
  {
    AllocRecordsPositive(purchaseId, unit, ids, takes);
    AllocatedFromInsertAll(t, AllocRecords(purchaseId, unit, ids, takes), purchaseId);
    RecordsQty(purchaseId, unit, ids, takes);
  }

  /**
   * The customer-list stage allocates from a purchase with nothing
   * allocated yet at most what was bought, and never a negative amount.
   */
  lemma {:induction false} NamedStageWithin(items: Table<OrderItem>, allocs: Table<Allocation>, req: PurchaseRequest, purchaseId: nat)
    requires AllocatedFrom(allocs, purchaseId) == 0.0 && BoughtInChargedUnit(req).Some?
    ensures var named := AllocatedFrom(InsertAll(allocs, NamedStage(items, allocs, req, purchaseId)), purchaseId);
            0.0 <= named <= Max0(BoughtInChargedUnit(req).value)
  {
    var b := BoughtInChargedUnit(req).value;
    if req.orderId == 0 || CustomerList(req.customers) == [] {
      assert InsertAll(allocs, []) == allocs;
    } else {
      var ids := NamedLines(items, req);
      var needs := LineNeeds(items, allocs, ids);
      var takes := FillInOrder(needs, b);
      FillBounds(needs, b);
      FirstStageWithin(needs, b);
      StageRaisesAllocated(allocs, purchaseId, req.chargedUnit, ids, takes);
    }
  }

  /** The auto-complete stage allocates at most what the purchase has left, and never a negative amount. */
  lemma {:induction false} AutoStageWithin(items: Table<OrderItem>, allocs: Table<Allocation>, req: PurchaseRequest, purchaseId: nat)
    requires BoughtInChargedUnit(req).Some?
    ensures var before := AllocatedFrom(allocs, purchaseId);
            var after := AllocatedFrom(InsertAll(allocs, AutoStage(items, allocs, req, purchaseId)), purchaseId);
            before <= after <= before + Max0(BoughtInChargedUnit(req).value - before)
  {
    var b := BoughtInChargedUnit(req).value;
    var before := AllocatedFrom(allocs, purchaseId);
    if req.orderId == 0 {
      assert InsertAll(allocs, []) == allocs;
    } else {
      var ids := ChargedUnitLines(items, req);
      var needs := LineNeeds(items, allocs, ids);
      var takes := AutoFill(needs, b - before);
      AutoFillNonNegative(needs, b - before);
      AutoFillWithinAvailable(needs, b - before);
      SumNonNegative(takes);
      StageRaisesAllocated(allocs, purchaseId, req.chargedUnit, ids, takes);
    }
  }

  /** A purchase no stored allocation names, such as the one just inserted, has nothing allocated. */
  lemma NothingAllocatedYet(allocs: Table<Allocation>, purchaseId: nat)
    requires forall k :: k in allocs.rows ==> allocs.rows[k].purchaseId != purchaseId
    ensures AllocatedFrom(allocs, purchaseId) == 0.0
  {
    SumBelowNone(allocs.rows, allocs.next, FromPurchase(purchaseId), AllocQty);
  }

  /**
   * Both allocation stages of one purchase, as the endpoint runs them,
   * together allocate from it at most what was bought: the auto-complete
   * stage measures the purchase less what the customer-list stage took.
   */
  lemma {:induction false} PurchaseWithinBought(items: Table<OrderItem>, allocs: Table<Allocation>, req: PurchaseRequest, purchaseId: nat)
    requires AllocatedFrom(allocs, purchaseId) == 0.0 && BoughtInChargedUnit(req).Some?
    ensures var named := InsertAll(allocs, NamedStage(items, allocs, req, purchaseId));
            var final := InsertAll(named, AutoStage(items, named, req, purchaseId));
            0.0 <= AllocatedFrom(final, purchaseId) <= Max0(BoughtInChargedUnit(req).value)
  {
    var named := InsertAll(allocs, NamedStage(items, allocs, req, purchaseId));
    NamedStageWithin(items, allocs, req, purchaseId);
    AutoStageWithin(items, named, req, purchaseId);
  }

  /** Stage 5: for a purchase against an order, the projection of its lines and their charges. */
  method ProjectOrder(items: ValidTable<OrderItem>, charges: ValidTable<Charge>, req: PurchaseRequest)
    returns (items': ValidTable<OrderItem>, charges': ValidTable<Charge>)
    ensures req.orderId == 0 ==> items' == items && charges' == charges
    ensures req.orderId != 0 ==>
              items' == Table(ProjectedItems(items.rows, req), items.next)
              && charges' == Table(RepricedCharges(charges.rows, items'.rows, req), charges.next)
  {
    items', charges' := items, charges;
    if req.orderId != 0 {
      items' := ProjectLines(items, req);
      charges' := RepriceCharges(charges, items', req);
    }
  }

  /** The lots table after stage 2: the surplus lot filed, if the purchase leaves one. */
  function FiledLots(lots: Table<InventoryLot>, lot: Option<InventoryLot>): (lots': Table<InventoryLot>)
    ensures lot.None? ==> lots' == lots
    ensures lot.Some? ==> lots' == Insert(lots, lot.value) && lots'.next == lots.next + 1
    ensures WellFormed(lots) ==> WellFormed(lots')
  {
    if lot.Some? then Insert(lots, lot.value) else lots
  }

  /** Stages 1 and 2: the purchase row, its price observation and the surplus lot. */
  method RecordPurchase(db: Store, req: PurchaseRequest, today: int) returns (purchaseId: nat)
    modifies db`purchases, db`priceHistory, db`lots
    ensures purchaseId == old(db.purchases.next)
    ensures db.purchases == Insert(old(db.purchases), NewPurchase(req))
    ensures db.priceHistory == Insert(old(db.priceHistory), NewPriceRecord(db.catalog, req, today))
    ensures db.lots == FiledLots(old(db.lots), StageLot(db.items, db.purchases, req, purchaseId))
  {
    purchaseId := db.purchases.next;
    var purchases := Insert(db.purchases, NewPurchase(req));
    var history := Insert(db.priceHistory, NewPriceRecord(db.catalog, req, today));
    var lots := FiledLots(db.lots, StageLot(db.items, purchases, req, purchaseId));
    db.purchases, db.priceHistory, db.lots := purchases, history, lots;
  }

  /** Stages 3 to 5: the allocations of the purchase, then the projection of the order. */
  method AllocateAndProject(db: Store, req: PurchaseRequest, purchaseId: nat)
    modifies db`allocations, db`items, db`charges
    ensures var named := InsertAll(old(db.allocations), NamedStage(old(db.items), old(db.allocations), req, purchaseId));
            db.allocations == InsertAll(named, AutoStage(old(db.items), named, req, purchaseId))
    ensures req.orderId == 0 ==> db.items == old(db.items) && db.charges == old(db.charges)
    ensures req.orderId != 0 ==>
              db.items == Table(ProjectedItems(old(db.items).rows, req), old(db.items).next)
              && db.charges == Table(RepricedCharges(old(db.charges).rows, db.items.rows, req), old(db.charges).next)
  {
    var allocs := AllocatePurchase(db.items, db.allocations, req, purchaseId);
    var items, charges := ProjectOrder(db.items, db.charges, req);
    db.allocations, db.items, db.charges := allocs, items, charges;
  }

  /** The whole endpoint: a rejection leaves the store as it was; otherwise the stages run. */
  method CreatePurchase(db: Store, req: PurchaseRequest, today: int) returns (r: Outcome)
    modifies db`purchases, db`priceHistory, db`lots, db`allocations, db`items, db`charges
    ensures Validate(req).Some? ==> r == Rejected(Validate(req).value) && unchanged(db)
    ensures Validate(req).None? && old(Blocked(db.items, db.purchases, req)) ==>
              r == Rejected(CustomersRequired) && unchanged(db)
    ensures Validate(req).None? && !old(Blocked(db.items, db.purchases, req)) ==>
              var pid := old(db.purchases.next);
              var named := InsertAll(old(db.allocations), NamedStage(old(db.items), old(db.allocations), req, pid));
              r == Created(pid)
              && db.purchases == Insert(old(db.purchases), NewPurchase(req))
              && db.priceHistory == Insert(old(db.priceHistory), NewPriceRecord(db.catalog, req, today))
              && db.lots == FiledLots(old(db.lots), StageLot(old(db.items), db.purchases, req, pid))
              && db.allocations == InsertAll(named, AutoStage(old(db.items), named, req, pid))
              && (req.orderId == 0 ==> db.items == old(db.items) && db.charges == old(db.charges))
              && (req.orderId != 0 ==>
                    db.items == Table(ProjectedItems(old(db.items).rows, req), old(db.items).next)
                    && db.charges == Table(RepricedCharges(old(db.charges).rows, db.items.rows, req), old(db.charges).next))
  {
    var invalid := Validate(req);
    if invalid.Some? {
      return Rejected(invalid.value);
    }
    if Blocked(db.items, db.purchases, req) {
      return Rejected(CustomersRequired);
    }
    var purchaseId := RecordPurchase(db, req, today);
    AllocateAndProject(db, req, purchaseId);
    r := Created(purchaseId);
  }
}
