/**
 * The charge endpoints: a charge created by hand, whose quantity and unit
 * come from its order line when it names one, and the reassignment of
 * surplus as a new order line with its own pending charge.
 */
module Charges {
  import opened Common
  import opened Records
  import opened Tables
  import opened Db
  import opened Pricing

  /** A `POST /charges` body; ids that are absent are 0, a missing text is "". */
  datatype ChargeRequest = ChargeRequest(
    customerId: int, orderId: int, originalOrderId: int, orderItemId: int, productId: int,
    qty: real, unit: string, unitPrice: real, discount: real, status: string,
    chargedQty: Option<real>)

  /** The order line a charge request names, if it names a stored one and gives no quantity of its own. */
  function LineOf(items: Table<OrderItem>, req: ChargeRequest): (r: Option<OrderItem>)
    ensures r.Some? <==> req.orderItemId > 0 && req.chargedQty.None? && req.orderItemId as nat in items.rows
    ensures r.Some? ==> r.value == items.rows[req.orderItemId as nat]
  {
    if req.orderItemId > 0 && req.chargedQty.None? && req.orderItemId as nat in items.rows
    then Some(items.rows[req.orderItemId as nat])
    else None
  }

  /**
   * The charge `create_charge` stores: the line's charged quantity and
   * unit when it names a line, `kg`/`pending` by default, and a total of
   * quantity times price with the discount stored apart.
   */
  function NewCharge(items: Table<OrderItem>, req: ChargeRequest): (c: Charge)
    ensures Priced(c) && c.discount == req.discount && c.unitPrice == req.unitPrice && c.qty == req.qty
    ensures c.status == OrText(req.status, "pending")
    ensures LineOf(items, req).None? ==> c.chargedQty == req.chargedQty && c.unit == OrText(req.unit, "kg")
    ensures LineOf(items, req).Some? ==>
              var line := LineOf(items, req).value;
              (line.chargedQty.Some? ==> c.chargedQty == line.chargedQty)
              && (line.chargedQty.None? ==> c.chargedQty.None?)
              && c.unit == OrText(OrText(line.chargedUnit, line.unit), OrText(req.unit, "kg"))
  {
    var line := LineOf(items, req);
    var unit := OrText(req.unit, "kg");
    var chargedQty := if line.Some? && line.value.chargedQty.Some? then line.value.chargedQty else req.chargedQty;
    var unit' := if line.Some? then OrText(OrText(line.value.chargedUnit, line.value.unit), unit) else unit;
    Charge(req.customerId, req.orderId, req.originalOrderId, req.orderItemId, req.productId,
           req.qty, chargedQty, unit', req.unitPrice, req.discount, OrText(req.status, "pending"),
           ChargeTotal(chargedQty, req.qty, req.unitPrice))
  }

  /** `POST /charges`: the new charge is stored under the next id. */
  method CreateCharge(db: Store, req: ChargeRequest) returns (id: nat)
    modifies db`charges
    ensures id == old(db.charges.next)
    ensures db.charges == Insert(old(db.charges), NewCharge(db.items, req))
  {
    id := db.charges.next;
    db.charges := Insert(db.charges, NewCharge(db.items, req));
  }

  /** A `POST /charges/reassign-excess` body; a missing id or number is 0, a missing text "". */
  datatype ExcessRequest = ExcessRequest(
    orderId: int, productId: int, customerId: int, qty: real, unit: string, unitPrice: real)

  /** The first required field that is missing or falsy, in the order they are checked. */
  function MissingField(req: ExcessRequest): (r: Option<string>)
    ensures r.None? <==> req.orderId != 0 && req.productId != 0 && req.customerId != 0
                         && req.qty != 0.0 && req.unit != "" && req.unitPrice != 0.0
  {
    if req.orderId == 0 then Some("order_id")
    else if req.productId == 0 then Some("product_id")
    else if req.customerId == 0 then Some("customer_id")
    else if req.qty == 0.0 then Some("qty")
    else if req.unit == "" then Some("unit")
    else if req.unitPrice == 0.0 then Some("unit_price")
    else None
  }

  /** The new line: charged in the unit and quantity it was requested in. */
  function ExcessLine(req: ExcessRequest): (it: OrderItem)
    ensures it.orderId == req.orderId && it.productId == req.productId && it.customerId == req.customerId
    ensures it.qty == req.qty && it.chargedQty == Some(req.qty) && it.unit == req.unit && it.chargedUnit == req.unit
  {
    OrderItem(req.orderId, req.customerId, req.productId, req.qty, req.unit, req.unit, Some(req.qty), None, None)
  }

  /** The new line's charge: pending, no discount, `qty * unit_price`. */
  function ExcessCharge(req: ExcessRequest, lineId: nat): (c: Charge)
    ensures Priced(c) && c.total == req.qty * req.unitPrice && Due(c) == Max0(req.qty * req.unitPrice)
    ensures c.orderItemId == lineId && c.status == "pending" && c.discount == 0.0
  {
    Charge(req.customerId, req.orderId, 0, lineId, req.productId, req.qty, Some(req.qty), req.unit,
           req.unitPrice, 0.0, "pending", req.qty * req.unitPrice)
  }

  datatype Reassigned = MissingRequired(field: string) | Reassigned(lineId: nat, chargeId: nat)

  /** `reassign_excess`: reject a falsy field, else add the line and its charge. */
  method ReassignExcess(db: Store, req: ExcessRequest) returns (r: Reassigned)
    modifies db`items, db`charges
    ensures MissingField(req).Some? ==> r == MissingRequired(MissingField(req).value) && unchanged(db)
    ensures MissingField(req).None? ==>
              r == Reassigned(old(db.items.next), old(db.charges.next))
              && db.items == Insert(old(db.items), ExcessLine(req))
              && db.charges == Insert(old(db.charges), ExcessCharge(req, old(db.items.next)))
  {
    var missing := MissingField(req);
    if missing.Some? {
      return MissingRequired(missing.value);
    }
    var lineId := db.items.next;
    db.items := Insert(db.items, ExcessLine(req));
    var chargeId := db.charges.next;
    db.charges := Insert(db.charges, ExcessCharge(req, lineId));
    r := Reassigned(lineId, chargeId);
  }
}
