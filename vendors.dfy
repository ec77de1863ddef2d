/**
 * The admin endpoints for vendors' product prices: creating a price with
 * its markup, editing its cost, markup or availability, and toggling its
 * availability. The resale price is always the cost raised by the markup
 * percentage.
 */
module Vendors {
  import opened Common
  import opened Records
  import opened Tables
  import opened Db

  /** `cost * (1 + markup / 100)`: the price the product is offered at. */
  function FinalPrice(cost: real, markup: real): (r: real)
  {
    cost * (1.0 + markup / 100.0)
  }

  /** A positive cost is raised by a positive markup, kept by none, lowered by a negative one. */
  lemma FinalPriceOrder(cost: real, markup: real)
    requires cost > 0.0
    ensures FinalPrice(cost, markup) - cost == cost * markup / 100.0
    ensures FinalPrice(cost, markup) > cost <==> markup > 0.0
    ensures FinalPrice(cost, markup) == cost <==> markup == 0.0
  {
    assert FinalPrice(cost, markup) - cost == cost * (markup / 100.0);
    if markup > 0.0 {
      assert cost * (markup / 100.0) > 0.0;
    } else if markup < 0.0 {
      assert cost * (-markup / 100.0) > 0.0;
    }
  }

  /** `price_per_kg or price_per_unit`: the cost a markup-only edit starts from. */
  function StoredCost(p: VendorPrice): Option<real>
  {
    OrNumber(p.pricePerKg, p.pricePerUnit)
  }

  // ---------------------------------------------------------------------
  // Creating a price

  /**
   * What `create_vendor_price` reads. A missing, null or zero product id
   * is 0; a missing unit is None and reads as `kg`.
   */
  datatype NewPrice = NewPrice(productId: int, variantId: Option<int>, unit: Option<string>, cost: NumField, markup: NumField)

  /**
   * The answers: a number field `float` cannot read (an unhandled error),
   * the 400 for a missing product or cost, the 400 for a price that
   * already exists, or the new row's id.
   */
  datatype CreateResult = Unreadable | MissingFields | AlreadyExists | Created(priceId: nat)

  function UnitOf(req: NewPrice): string
  {
    if req.unit.Some? then req.unit.value else "kg"
  }

  function SameKey(vendorId: int, productId: int, variantId: Option<int>): VendorPrice -> bool
  {
    (p: VendorPrice) => p.vendorId == vendorId && p.productId == productId && p.variantId == variantId
  }

  /** The first price of this vendor, product and variant, if any. */
  function Existing(prices: ValidTable<VendorPrice>, vendorId: int, productId: int, variantId: Option<int>): (r: bool)
    ensures r <==> exists k :: k in prices.rows && SameKey(vendorId, productId, variantId)(prices.rows[k])
  {
    SelectFirst(prices, SameKey(vendorId, productId, variantId));
    Select(prices, SameKey(vendorId, productId, variantId)) != []
  }

  /** The outcome of the checks: refused with an answer, or the cost and markup to store. */
  datatype Checked = Refused(answer: CreateResult) | Accepted(cost: real, markup: real)

  /** The reads and checks of `create_vendor_price`, in the order it makes them. */
  function Check(prices: ValidTable<VendorPrice>, vendorId: int, req: NewPrice): (r: Checked)
    ensures r.Refused? ==> !r.answer.Created?
  {
    var cost := NumOr(req.cost, 0.0);
    var markup := NumOr(req.markup, 20.0);
    if cost.None? || markup.None? then Refused(Unreadable)
    else if req.productId == 0 || cost.value <= 0.0 then Refused(MissingFields)
    else if Existing(prices, vendorId, req.productId, req.variantId) then Refused(AlreadyExists)
    else Accepted(cost.value, markup.value)
  }

  /**
   * A price is accepted exactly when both numbers read, the product is
   * given, the cost is positive and the vendor has no price for that
   * product and variant; the markup is the one given, else 20.
   */
  lemma CheckExact(prices: ValidTable<VendorPrice>, vendorId: int, req: NewPrice)
    ensures Check(prices, vendorId, req) == Refused(Unreadable) <==> req.cost.Unparsable? || req.markup.Unparsable?
    ensures Check(prices, vendorId, req).Accepted? <==>
              req.cost.Number? && req.cost.value > 0.0 && !req.markup.Unparsable? && req.productId != 0
              && forall k :: k in prices.rows ==> !SameKey(vendorId, req.productId, req.variantId)(prices.rows[k])
    ensures Check(prices, vendorId, req).Accepted? ==>
              Check(prices, vendorId, req) == Accepted(req.cost.value, if req.markup.Number? then req.markup.value else 20.0)
  {
  }

  /**
   * The row `create_vendor_price` stores: the cost in `price_per_kg` for
   * `kg`, in `price_per_unit` for `unit`, and in neither for any other
   * unit.
   */
  function NewRowAsWritten(vendorId: int, req: NewPrice, cost: real, markup: real, now: int): VendorPrice
  {
    var unit := UnitOf(req);
    VendorPrice(vendorId, req.productId, req.variantId,
                if unit == "kg" then Some(cost) else None,
                if unit == "unit" then Some(cost) else None,
                unit, markup, FinalPrice(cost, markup), true, now, "manual")
  }

  /** The stored row with the cost kept in `price_per_unit` for every unit but `kg`, as an edit does. */
  function NewRow(vendorId: int, req: NewPrice, cost: real, markup: real, now: int): VendorPrice
  {
    var unit := UnitOf(req);
    VendorPrice(vendorId, req.productId, req.variantId,
                if unit == "kg" then Some(cost) else None,
                if unit == "kg" then None else Some(cost),
                unit, markup, FinalPrice(cost, markup), true, now, "manual")
  }

  /** `create_vendor_price` as written. */
  function CreateAsWritten(prices: ValidTable<VendorPrice>, vendorId: int, req: NewPrice, now: int)
    : (r: (ValidTable<VendorPrice>, CreateResult))
  {
    var c := Check(prices, vendorId, req);
    if c.Refused? then (prices, c.answer)
    else (Insert(prices, NewRowAsWritten(vendorId, req, c.cost, c.markup, now)), Created(prices.next))
  }

  /** `create_vendor_price` with the cost of a non-`kg` price kept in `price_per_unit`. */
  function Create(prices: ValidTable<VendorPrice>, vendorId: int, req: NewPrice, now: int)
    : (r: (ValidTable<VendorPrice>, CreateResult))
  {
    var c := Check(prices, vendorId, req);
    if c.Refused? then (prices, c.answer)
    else (Insert(prices, NewRow(vendorId, req, c.cost, c.markup, now)), Created(prices.next))
  }

  /**
   * A refused request stores nothing. An accepted one stores one
   * available `manual` row under the next id, priced at the cost raised
   * by the markup, whose stored cost is the cost given.
   */
  lemma CreateExact(prices: ValidTable<VendorPrice>, vendorId: int, req: NewPrice, now: int)
    ensures var r := Create(prices, vendorId, req, now);
            !r.1.Created? ==> r.0 == prices
    ensures var r := Create(prices, vendorId, req, now);
            var c := Check(prices, vendorId, req);
            r.1.Created? ==>
              c.Accepted? && r.1.priceId == prices.next && r.0.rows.Keys == prices.rows.Keys + {prices.next}
              && (forall k :: k in prices.rows ==> r.0.rows[k] == prices.rows[k])
              && var p := r.0.rows[prices.next];
                 p.vendorId == vendorId && p.productId == req.productId && p.variantId == req.variantId
                 && p.unit == UnitOf(req) && p.markup == c.markup && p.finalPrice == FinalPrice(c.cost, c.markup)
                 && p.isAvailable && p.lastUpdated == now && p.source == "manual"
                 && StoredCost(p) == Some(c.cost)
                 && (p.unit == "kg" ==> p.pricePerKg == Some(c.cost))
                 && (p.unit != "kg" ==> p.pricePerUnit == Some(c.cost))
  {
  }

  /** A price created without a markup gets the default 20%: it is offered at 1.2 times its cost. */
  lemma CreateDefaultMarkup(prices: ValidTable<VendorPrice>, vendorId: int, req: NewPrice, now: int)
    requires req.markup.Absent?
    ensures var r := Create(prices, vendorId, req, now);
            r.1.Created? ==>
              req.cost.Number? && r.0.rows[prices.next].markup == 20.0
              && r.0.rows[prices.next].finalPrice == 1.2 * req.cost.value
  {
    CheckExact(prices, vendorId, req);
  }

  /** No two prices share vendor, product and variant. */
  ghost predicate UniqueKeys(prices: ValidTable<VendorPrice>)
  {
    forall j, k :: j in prices.rows && k in prices.rows && j != k ==>
      !SameKey(prices.rows[j].vendorId, prices.rows[j].productId, prices.rows[j].variantId)(prices.rows[k])
  }

  /** The duplicate check keeps the keys unique. */
  lemma CreateKeepsKeysUnique(prices: ValidTable<VendorPrice>, vendorId: int, req: NewPrice, now: int)
    requires UniqueKeys(prices)
    ensures UniqueKeys(Create(prices, vendorId, req, now).0)
  {
    var r := Create(prices, vendorId, req, now);
    if r.1.Created? {
      CheckExact(prices, vendorId, req);
      var n := prices.next;
      forall j, k | j in r.0.rows && k in r.0.rows && j != k
        ensures !SameKey(r.0.rows[j].vendorId, r.0.rows[j].productId, r.0.rows[j].variantId)(r.0.rows[k])
      {
        if j == n {
          assert !SameKey(vendorId, req.productId, req.variantId)(prices.rows[k]);
        } else if k == n {
          assert !SameKey(vendorId, req.productId, req.variantId)(prices.rows[j]);
        }
      }
    }
  }

  /**
   * As written, a price in a unit other than `kg` and `unit` keeps its
   * cost nowhere, so a later markup-only edit of it fails; once the cost
   * is kept in `price_per_unit` the same edit succeeds.
   */
  lemma GramPriceLosesCost(prices: ValidTable<VendorPrice>, now: int, later: int)
    requires forall k :: k in prices.rows ==> !SameKey(1, 1, None)(prices.rows[k])
    ensures var req := NewPrice(1, None, Some("g"), Number(10.0), Absent);
            var r := CreateAsWritten(prices, 1, req, now);
            r.1 == Created(prices.next) && StoredCost(r.0.rows[prices.next]) == None
            && Edit(r.0, prices.next, PriceEdit(Absent, Number(30.0), None), later).1 == EditFailed
    ensures var req := NewPrice(1, None, Some("g"), Number(10.0), Absent);
            var r := Create(prices, 1, req, now);
            r.1 == Created(prices.next) && StoredCost(r.0.rows[prices.next]) == Some(10.0)
            && Edit(r.0, prices.next, PriceEdit(Absent, Number(30.0), None), later).1.Updated?
            && Edit(r.0, prices.next, PriceEdit(Absent, Number(30.0), None), later).1.price.finalPrice == 13.0
  {
    var req := NewPrice(1, None, Some("g"), Number(10.0), Absent);
    CheckExact(prices, 1, req);
    assert Check(prices, 1, req) == Accepted(10.0, 20.0);
  }

  // ---------------------------------------------------------------------
  // Editing a price

  /** What `update_vendor_price` reads; `Absent` is a key not in the body. */
  datatype PriceEdit = PriceEdit(cost: NumField, markup: NumField, isAvailable: Option<bool>)

  datatype EditResult = NotFound | EditFailed | Updated(price: VendorPrice)

  /**
   * The row after `update_vendor_price`, or None when a number cannot be
   * read or a markup-only edit finds no stored cost (the request then
   * fails and nothing is committed).
   */
  function EditRow(p: VendorPrice, req: PriceEdit, now: int): Option<VendorPrice>
  {
    var priced :=
      if req.cost.Absent? then Some(p)
      else if req.cost.Unparsable? then None
      else
        var m := NumOr(req.markup, p.markup);
        if m.None? then None
        else
          var c := req.cost.value;
          var q := p.(markup := m.value, finalPrice := FinalPrice(c, m.value));
          Some(if p.unit == "kg" then q.(pricePerKg := Some(c)) else q.(pricePerUnit := Some(c)));
    var marked :=
      if priced.None? || !req.cost.Absent? || req.markup.Absent? then priced
      else if req.markup.Unparsable? || StoredCost(p).None? then None
      else Some(p.(markup := req.markup.value, finalPrice := FinalPrice(StoredCost(p).value, req.markup.value)));
    if marked.None? then None
    else
      var q := if req.isAvailable.Some? then marked.value.(isAvailable := req.isAvailable.value) else marked.value;
      Some(q.(lastUpdated := now, source := "manual"))
  }

  /** `update_vendor_price`: a missing price is not found; a failed edit stores nothing. */
  function Edit(prices: ValidTable<VendorPrice>, priceId: nat, req: PriceEdit, now: int)
    : (r: (ValidTable<VendorPrice>, EditResult))
  {
    if priceId !in prices.rows then (prices, NotFound)
    else
      var p := EditRow(prices.rows[priceId], req, now);
      if p.None? then (prices, EditFailed) else (Update(prices, priceId, p.value), Updated(p.value))
  }

  /**
   * A new cost re-prices the row with the markup given, else the stored
   * one, and is kept in the field of the row's unit. A new markup alone
   * re-prices the stored cost; with neither, the prices stay as they
   * were. Vendor, product, variant and unit never
   * change; every edit stamps the time and marks the row `manual`.
   */
  lemma EditExact(prices: ValidTable<VendorPrice>, priceId: nat, req: PriceEdit, now: int)
    ensures var r := Edit(prices, priceId, req, now);
            (r.1 == NotFound <==> priceId !in prices.rows) && (!r.1.Updated? ==> r.0 == prices)
    ensures var r := Edit(prices, priceId, req, now);
            r.1.Updated? ==>
              var old_p := prices.rows[priceId];
              var p := r.1.price;
              r.0.rows == prices.rows[priceId := p]
              && p.vendorId == old_p.vendorId && p.productId == old_p.productId
              && p.variantId == old_p.variantId && p.unit == old_p.unit
              && p.lastUpdated == now && p.source == "manual"
              && p.isAvailable == (if req.isAvailable.Some? then req.isAvailable.value else old_p.isAvailable)
    ensures var r := Edit(prices, priceId, req, now);
            r.1.Updated? && req.cost.Number? ==>
              var old_p := prices.rows[priceId];
              var m := if req.markup.Number? then req.markup.value else old_p.markup;
              var p := r.1.price;
              p.markup == m && p.finalPrice == FinalPrice(req.cost.value, m)
              && (old_p.unit == "kg" ==> p.pricePerKg == Some(req.cost.value) && p.pricePerUnit == old_p.pricePerUnit)
              && (old_p.unit != "kg" ==> p.pricePerUnit == Some(req.cost.value) && p.pricePerKg == old_p.pricePerKg)
    ensures var r := Edit(prices, priceId, req, now);
            r.1.Updated? && req.cost.Absent? && req.markup.Number? ==>
              var old_p := prices.rows[priceId];
              var p := r.1.price;
              StoredCost(old_p).Some? && p.markup == req.markup.value
              && p.finalPrice == FinalPrice(StoredCost(old_p).value, req.markup.value)
              && p.pricePerKg == old_p.pricePerKg && p.pricePerUnit == old_p.pricePerUnit
    ensures var r := Edit(prices, priceId, req, now);
            r.1.Updated? && req.cost.Absent? && req.markup.Absent? ==>
              var old_p := prices.rows[priceId];
              var p := r.1.price;
              p.markup == old_p.markup && p.finalPrice == old_p.finalPrice
              && p.pricePerKg == old_p.pricePerKg && p.pricePerUnit == old_p.pricePerUnit
    ensures var r := Edit(prices, priceId, req, now);
            priceId in prices.rows ==>
              (r.1 == EditFailed <==>
                 req.cost.Unparsable? || req.markup.Unparsable?
                 || (req.cost.Absent? && req.markup.Number? && StoredCost(prices.rows[priceId]).None?))
  {
  }

  /** `toggle_availability`: the row's availability flips and its time is stamped. */
  function Toggle(prices: ValidTable<VendorPrice>, priceId: nat, now: int): (r: (ValidTable<VendorPrice>, EditResult))
  {
    if priceId !in prices.rows then (prices, NotFound)
    else
      var p := prices.rows[priceId];
      var p' := p.(isAvailable := !p.isAvailable, lastUpdated := now);
      (Update(prices, priceId, p'), Updated(p'))
  }

  /** Toggling twice gives back the row as it was, but for the time of the second toggle. */
  lemma ToggleTwice(prices: ValidTable<VendorPrice>, priceId: nat, now: int, later: int)
    requires priceId in prices.rows
    ensures var r := Toggle(Toggle(prices, priceId, now).0, priceId, later);
            r.0.rows == prices.rows[priceId := prices.rows[priceId].(lastUpdated := later)]
            && r.0.next == prices.next
  {
  }

  // ---------------------------------------------------------------------
  // The endpoints on the database

  /** `POST /admin/vendors/<vendor_id>/prices`, keeping the cost of every unit. */
  method CreateVendorPrice(db: Store, vendorId: int, req: NewPrice, now: int) returns (r: CreateResult)
    modifies db`vendorPrices
    ensures (db.vendorPrices, r) == Create(old(db.vendorPrices), vendorId, req, now)
  {
    var c := Check(db.vendorPrices, vendorId, req);
    if c.Refused? {
      return c.answer;
    }
    r := Created(db.vendorPrices.next);
    db.vendorPrices := Insert(db.vendorPrices, NewRow(vendorId, req, c.cost, c.markup, now));
  }

  /** `PUT /admin/vendors/prices/<price_id>`: the fields of the stored row are set one after another. */
  method UpdateVendorPrice(db: Store, priceId: nat, req: PriceEdit, now: int) returns (r: EditResult)
    modifies db`vendorPrices
    ensures (db.vendorPrices, r) == Edit(old(db.vendorPrices), priceId, req, now)
  {
    if priceId !in db.vendorPrices.rows {
      return NotFound;
    }
    var p := db.vendorPrices.rows[priceId];
    if !req.cost.Absent? {
      if req.cost.Unparsable? {
        return EditFailed;
      }
      var m := NumOr(req.markup, p.markup);
      if m.None? {
        return EditFailed;
      }
      p := p.(markup := m.value);
      var finalPrice := FinalPrice(req.cost.value, m.value);
      if p.unit == "kg" {
        p := p.(pricePerKg := Some(req.cost.value));
      } else {
        p := p.(pricePerUnit := Some(req.cost.value));
      }
      p := p.(finalPrice := finalPrice);
    }
    if !req.markup.Absent? && req.cost.Absent? {
      if req.markup.Unparsable? {
        return EditFailed;
      }
      var base := StoredCost(p);
      if base.None? {
        return EditFailed;
      }
      p := p.(markup := req.markup.value);
      p := p.(finalPrice := FinalPrice(base.value, req.markup.value));
    }
    if req.isAvailable.Some? {
      p := p.(isAvailable := req.isAvailable.value);
    }
    p := p.(lastUpdated := now);
    p := p.(source := "manual");
    db.vendorPrices := Update(db.vendorPrices, priceId, p);
    r := Updated(p);
  }

  /** `PATCH /admin/vendors/prices/<price_id>/toggle`. */
  method ToggleAvailability(db: Store, priceId: nat, now: int) returns (r: EditResult)
    modifies db`vendorPrices
    ensures (db.vendorPrices, r) == Toggle(old(db.vendorPrices), priceId, now)
  {
    if priceId !in db.vendorPrices.rows {
      return NotFound;
    }
    var p := db.vendorPrices.rows[priceId];
    p := p.(isAvailable := !p.isAvailable);
    p := p.(lastUpdated := now);
    db.vendorPrices := Update(db.vendorPrices, priceId, p);
    r := Updated(p);
  }
}
