/**
 * The order lifecycle: the current draft, adding lines to it or to any
 * order (with the reason each rejected line was skipped), confirming the
 * draft with one pending charge per line, pricing a charge on the spot
 * when lines are added to an emitted order, deleting a line with its
 * charges, and the totals the order detail shows.
 */
module Orders {
  import opened Common
  import opened Records
  import opened Tables
  import opened Db
  import opened Pricing
  import opened Text

  /** Today, as the catalog stores a date and as its ISO text. */
  datatype Day = Day(ordinal: int, iso: string)

  const Emitted: string := "emitido"

  // ---------------------------------------------------------------------
  // The current draft

  predicate IsDraft(o: Order)
  {
    o.status == "draft"
  }

  /**
   * The most recently created draft, if any. Orders are created in id
   * order, so it is the draft with the largest id.
   */
  function LatestDraft(orders: ValidTable<Order>): (d: Option<nat>)
    ensures d.None? <==> forall k :: k in orders.rows ==> !IsDraft(orders.rows[k])
    ensures d.Some? ==> d.value in orders.rows && IsDraft(orders.rows[d.value])
    ensures d.Some? ==> forall k :: k in orders.rows && IsDraft(orders.rows[k]) ==> k <= d.value
  {
    var ids := Select(orders, IsDraft);
    SelectExact(orders, IsDraft);
    SelectIncreasing(orders, IsDraft);
    if ids == [] then None
    else
      assert forall k :: k in ids ==> k <= ids[|ids| - 1] by {
        forall k | k in ids ensures k <= ids[|ids| - 1] {
          var j :| 0 <= j < |ids| && ids[j] == k;
          if j < |ids| - 1 {
            assert ids[j] < ids[|ids| - 1];
          }
        }
      }
      Some(ids[|ids| - 1])
  }

  function DraftTitle(id: nat, today: Day): string
  {
    "Pedido Nro " + NatToString(id) + " - " + today.iso
  }

  /**
   * The draft `_get_draft(create=True)` returns, and the orders it leaves:
   * the latest draft if there is one, otherwise a new titled draft. Either
   * way the returned order is afterwards the latest draft, so asking again
   * returns the same order.
   */
  function DraftFor(orders: ValidTable<Order>, today: Day): (r: (nat, ValidTable<Order>))
    ensures r.0 in r.1.rows && IsDraft(r.1.rows[r.0])
    ensures LatestDraft(r.1) == Some(r.0)
    ensures LatestDraft(orders).Some? ==> r == (LatestDraft(orders).value, orders)
    ensures LatestDraft(orders).None? ==>
              r.0 == orders.next && r.1.rows == orders.rows[orders.next := Order(DraftTitle(orders.next, today), "draft", today.ordinal)]
  {
    var d := LatestDraft(orders);
    if d.Some? then (d.value, orders)
    else
      var orders' := Insert(orders, Order(DraftTitle(orders.next, today), "draft", today.ordinal));
      assert orders.next in orders'.rows && IsDraft(orders'.rows[orders.next]);
      (orders.next, orders')
  }

  /** `_get_draft(create)`: creates a draft only when none exists and `create` is set. */
  method GetDraft(db: Store, create: bool, today: Day) returns (d: Option<nat>)
    modifies db`orders
    ensures old(LatestDraft(db.orders)).Some? || !create ==>
              d == old(LatestDraft(db.orders)) && db.orders == old(db.orders)
    ensures old(LatestDraft(db.orders)).None? && create ==>
              d == Some(old(DraftFor(db.orders, today)).0) && db.orders == old(DraftFor(db.orders, today)).1
  {
    d := LatestDraft(db.orders);
    if d.Some? || !create {
      return;
    }
    // The id is only known once the row is flushed; the title follows.
    var id := db.orders.next;
    db.orders := Insert(db.orders, Order("", "draft", today.ordinal));
    db.orders := Update(db.orders, id, Order(DraftTitle(id, today), "draft", today.ordinal));
    d := Some(id);
  }

  // ---------------------------------------------------------------------
  // Adding lines

  /**
   * One submitted line. Absent ids are 0, absent texts "", an absent
   * `line_index`, `variant_id`, price or `charged_qty` is None.
   */
  datatype ItemRequest = ItemRequest(
    lineIndex: Option<int>, customer: string, productId: int, product: string,
    variantId: Option<int>, saleUnitPrice: Option<real>, createIfMissing: bool,
    salePrice: Option<real>, defaultUnit: string, unit: string, chargedUnit: string,
    chargedQty: Option<real>, qty: real)

  /**
   * Why a line was not stored. `NameInUse` is never reported as a skip:
   * the product insert fails on the unique `name` column, the exception
   * ends the request and nothing it did is kept.
   */
  datatype Reason = MissingCustomer | UnresolvedProduct | MissingSalePrice | EmptyProductName | NameInUse

  /** An entry of `skipped`: the line's index and why it was not inserted. */
  datatype Skip = Skip(index: int, reason: Reason)

  /** The tables adding lines reads and writes. */
  datatype Books = Books(
    customers: ValidTable<Customer>, products: ValidTable<Product>, catalog: ValidTable<CatalogPrice>,
    variants: ValidTable<Variant>, tiers: ValidTable<PriceTier>, items: ValidTable<OrderItem>,
    charges: ValidTable<Charge>)

  /** The first customer with exactly this name. */
  function CustomerNamed(customers: ValidTable<Customer>, name: string): (r: Option<nat>)
    ensures r.Some? ==> r.value in customers.rows
  {
    var named := (c: Customer) => c.name == name;
    SelectExact(customers, named);
    var ids := Select(customers, named);
    if ids == [] then None else Some(ids[0])
  }

  /** It is the customer of that name with the smallest id, and None only when nobody has that name. */
  lemma CustomerNamedExact(customers: ValidTable<Customer>, name: string)
    ensures CustomerNamed(customers, name).Some? ==>
              customers.rows[CustomerNamed(customers, name).value].name == name
              && forall k :: k in customers.rows && customers.rows[k].name == name ==> CustomerNamed(customers, name).value <= k
    ensures CustomerNamed(customers, name).None? <==> forall k :: k in customers.rows ==> customers.rows[k].name != name
  {
    SelectFirst(customers, (c: Customer) => c.name == name);
  }

  /** The customer called `name`, created when there is none. */
  function EnsureCustomer(b: Books, name: string): (r: (Books, nat))
    ensures r.0 == b || r.0 == b.(customers := Insert(b.customers, Customer(name)))
  {
    var found := CustomerNamed(b.customers, name);
    if found.Some? then (b, found.value)
    else (b.(customers := Insert(b.customers, Customer(name))), b.customers.next)
  }

  /**
   * The returned customer has that name; a customer is added exactly when
   * none had it, and then it is the only one that does.
   */
  lemma EnsureCustomerExact(b: Books, name: string)
    ensures EnsureCustomer(b, name).1 in EnsureCustomer(b, name).0.customers.rows
    ensures EnsureCustomer(b, name).0.customers.rows[EnsureCustomer(b, name).1].name == name
    ensures EnsureCustomer(b, name).0 == b <==> exists k :: k in b.customers.rows && b.customers.rows[k].name == name
  {
    CustomerNamedExact(b.customers, name);
    assert b.customers.next !in b.customers.rows;
  }

  /** `Product.name.ilike(name)` on SQLite: equal once ASCII capitals are folded. */
  predicate SameName(p: Product, name: string)
  {
    AsciiLower(p.name) == AsciiLower(name)
  }

  /**
   * The product a line names: by id when it gives a non-zero id, otherwise
   * the first whose name matches with ASCII case folded.
   */
  function FindProduct(products: ValidTable<Product>, productId: int, name: string): (r: Option<nat>)
    ensures r.Some? ==> r.value in products.rows
  {
    if productId != 0 then
      if productId > 0 && productId as nat in products.rows then Some(productId as nat) else None
    else
      var named := (p: Product) => SameName(p, name);
      SelectExact(products, named);
      var ids := Select(products, named);
      if ids == [] then None else Some(ids[0])
  }

  /** With an id the product is found exactly when that id is stored; without, exactly when some name matches. */
  lemma FindProductExact(products: ValidTable<Product>, productId: int, name: string)
    ensures productId != 0 ==>
              FindProduct(products, productId, name) == (if productId > 0 && productId as nat in products.rows then Some(productId as nat) else None)
    ensures productId == 0 ==>
              (FindProduct(products, productId, name).Some? <==> exists k :: k in products.rows && SameName(products.rows[k], name))
    ensures productId == 0 && FindProduct(products, productId, name).Some? ==>
              SameName(products.rows[FindProduct(products, productId, name).value], name)
  {
    var named := (p: Product) => SameName(p, name);
    SelectExact(products, named);
  }
  /**
   * SQLite folds only ASCII capitals: `Tomate` matches `tomate`, while
   * `Ñame` and `ñame` are two different names.
   */
  lemma SameNameAsciiOnly(unit: string)
    ensures SameName(Product("Tomate", unit), "tomate")
    ensures !SameName(Product("\U{00D1}ame", unit), "\U{00F1}ame")
  {
    var t, u := AsciiLower("Tomate"), AsciiLower("tomate");
    assert |t| == |u| == 6;
    assert forall i :: 0 <= i < 6 ==> t[i] == u[i];
    assert AsciiLower("\U{00D1}ame")[0] == '\U{00D1}' != '\U{00F1}' == AsciiLower("\U{00F1}ame")[0];
  }


  /** Whether some product already has this name: the `name` column is unique. */
  function NameTaken(products: ValidTable<Product>, name: string): bool
  {
    Select(products, (p: Product) => p.name == name) != []
  }

  lemma NameTakenExact(products: ValidTable<Product>, name: string)
    ensures NameTaken(products, name) <==> exists k :: k in products.rows && products.rows[k].name == name
  {
    SelectFirst(products, (p: Product) => p.name == name);
  }

  /** No two products share a name. */
  ghost predicate UniqueNames(products: ValidTable<Product>)
  {
    forall j, k :: j in products.rows && k in products.rows && j != k ==> products.rows[j].name != products.rows[k].name
  }

  /**
   * `_create_product_with_kivi`: the product, today's catalog price, and a
   * `kivi` variant with a tier from one unit at the same price.
   */
  function CreateProduct(b: Books, name: string, price: real, unit: string, today: Day): (r: (Books, nat))
    requires !NameTaken(b.products, name)
    ensures r.1 in r.0.products.rows
    ensures r.0.customers == b.customers && r.0.items == b.items && r.0.charges == b.charges
    ensures b.products.rows.Keys <= r.0.products.rows.Keys
  {
    var pid := b.products.next;
    var b' := b.(products := Insert(b.products, Product(name, unit)),
                 catalog := Insert(b.catalog, CatalogPrice(pid, today.ordinal, price, unit)),
                 variants := Insert(b.variants, Variant(pid, "kivi")),
                 tiers := Insert(b.tiers, PriceTier(pid, Some(b.variants.next), 1.0, unit, price)));
    (b', pid)
  }

  /**
   * The new product takes the next id, and afterwards it has a catalog
   * price and a one-unit tier of its `kivi` variant, both at the sale
   * price, in its default unit.
   */
  lemma CreateProductPriced(b: Books, name: string, price: real, unit: string, today: Day)
    requires !NameTaken(b.products, name)
    ensures var r := CreateProduct(b, name, price, unit, today);
            r.1 == b.products.next && r.0.products.rows[r.1] == Product(name, unit)
            && LatestSalePrice(r.0.catalog, r.1).Some?
            && b.variants.next in r.0.variants.rows && r.0.variants.rows[b.variants.next] == Variant(r.1, "kivi")
            && b.tiers.next in r.0.tiers.rows
            && r.0.tiers.rows[b.tiers.next] == PriceTier(r.1, Some(b.variants.next), 1.0, unit, price)
  {
    var r := CreateProduct(b, name, price, unit, today);
    assert b.catalog.next in r.0.catalog.rows && r.0.catalog.rows[b.catalog.next].productId == r.1;
  }

  /** The charged unit: the one asked for, else the product's default, else the line's unit, else `kg`. */
  function ChargedUnitFor(req: ItemRequest, product: Product): string
  {
    OrText(OrText(OrText(req.chargedUnit, product.defaultUnit), req.unit), "kg")
  }

  /** The stored line. */
  function NewLine(orderId: nat, customerId: nat, productId: nat, product: Product, req: ItemRequest): (it: OrderItem)
    ensures it.orderId == orderId
  {
    var chargedUnit := ChargedUnitFor(req, product);
    var unit := OrText(req.unit, "kg");
    OrderItem(orderId, customerId, productId, req.qty, unit, chargedUnit,
              if unit != chargedUnit then req.chargedQty else None,
              if req.variantId.Some? && req.variantId.value != 0 then req.variantId else None,
              req.saleUnitPrice)
  }

  /**
   * The charged unit of a new line falls back from the requested one to
   * the product's default, the line's unit and `kg`, and is never empty;
   * a charged quantity is kept only when the line is charged in a unit
   * other than the one it was asked in; a zero variant is not stored.
   */
  lemma NewLineUnits(orderId: nat, customerId: nat, productId: nat, product: Product, req: ItemRequest)
    ensures var it := NewLine(orderId, customerId, productId, product, req);
            it.customerId == customerId && it.productId == productId
            && it.qty == req.qty && it.unit == OrText(req.unit, "kg") && it.saleUnitPrice == req.saleUnitPrice
            && it.chargedUnit != ""
            && (req.chargedUnit != "" ==> it.chargedUnit == req.chargedUnit)
            && (req.chargedUnit == "" && product.defaultUnit != "" ==> it.chargedUnit == product.defaultUnit)
            && (req.chargedUnit == "" && product.defaultUnit == "" ==> it.chargedUnit == it.unit)
            && (it.unit != it.chargedUnit ==> it.chargedQty == req.chargedQty)
            && (it.unit == it.chargedUnit ==> it.chargedQty.None?)
            && (it.variantId.Some? <==> req.variantId.Some? && req.variantId.value != 0)
  {
  }

  /**
   * The unit price of a generated charge: the line's fixed price, else the
   * price of the highest tier reached for `unit` and `variant`, else the
   * latest catalog price, else 0.
   */
  function UnitPrice(tiers: ValidTable<PriceTier>, catalog: ValidTable<CatalogPrice>, productId: int, unit: string,
                     variant: Option<int>, qty: real, fixed: Option<real>): real
  {
    LinePrice(fixed, FirstTierPrice(TierCandidates(tiers, productId, unit, variant), qty), LatestSalePrice(catalog, productId))
  }

  /**
   * The charge generated for a line at `price`: pending, with no discount,
   * and a total of the charged (or ordered) quantity times price.
   */
  function LineCharge(orderId: nat, lineId: nat, line: OrderItem, unit: string, price: real): (c: Charge)
    ensures FreshCharge(c, orderId) && c.orderItemId == lineId
  {
    Charge(line.customerId, orderId, orderId, lineId, line.productId, line.qty, line.chargedQty, unit,
           price, 0.0, "pending", ChargeTotal(line.chargedQty, line.qty, price))
  }

  /** What every charge generated for order `orderId` looks like. */
  predicate FreshCharge(c: Charge, orderId: nat)
  {
    c.orderId == orderId && c.originalOrderId == orderId && c.status == "pending" && c.discount == 0.0 && Priced(c)
  }

  predicate ValidOutcome(b: Books, b': Books, skip: Option<Skip>, orderId: nat, emitted: bool)
  {
    (skip.Some? ==> b'.items == b.items && b'.charges == b.charges)
    && (skip.None? ==>
          b.items.next in b'.items.rows
          && b'.items == Insert(b.items, b'.items.rows[b.items.next])
          && b'.items.rows[b.items.next].orderId == orderId)
    && (skip.None? && emitted ==>
          b.charges.next in b'.charges.rows
          && b'.charges == Insert(b.charges, b'.charges.rows[b.charges.next])
          && FreshCharge(b'.charges.rows[b.charges.next], orderId)
          && b'.charges.rows[b.charges.next].orderItemId == b.items.next)
    && (skip.None? && !emitted ==> b'.charges == b.charges)
  }

  /** A line's customer and product, or why it has none. */
  datatype Resolution = Unresolved(reason: Reason) | Resolved(customerId: nat, productId: nat)

  /**
   * Why the product a line names cannot be used, checked in the handlers'
   * order, or None when it is found or can be created. `taken` says
   * whether a product already has the line's name.
   */
  function ProductFailure(found: Option<nat>, req: ItemRequest, pname: string, taken: bool): (f: Option<Reason>)
    ensures f.Some? ==> found.None?
  {
    if found.Some? then None
    else if !req.createIfMissing then Some(UnresolvedProduct)
    else if pname != "" && !(req.salePrice.Some? && req.salePrice.value > 0.0) then Some(MissingSalePrice)
    else if pname == "" then Some(EmptyProductName)
    else if taken then Some(NameInUse)
    else None
  }

  /**
   * The customer and product of a line, in the order the handlers look
   * for them: the customer is found or created first, and is kept even
   * when the product then fails.
   */
  function Resolve(b: Books, req: ItemRequest, today: Day): (r: (Books, Resolution))
    ensures r.0.items == b.items && r.0.charges == b.charges
    ensures r.1.Resolved? ==> r.1.productId in r.0.products.rows
  {
    var name := Strip(req.customer);
    if name == "" then (b, Unresolved(MissingCustomer))
    else
      var withCustomer := EnsureCustomer(b, name);
      var b1 := withCustomer.0;
      var pname := Strip(req.product);
      var found := FindProduct(b1.products, req.productId, pname);
      var failure := ProductFailure(found, req, pname, NameTaken(b1.products, pname));
      if failure.Some? then (b1, Unresolved(failure.value))
      else if found.Some? then (b1, Resolved(withCustomer.1, found.value))
      else
        var created := CreateProduct(b1, pname, req.salePrice.value, OrText(OrText(req.defaultUnit, req.unit), "kg"), today);
        (created.0, Resolved(withCustomer.1, created.1))
  }

  /**
   * Why a line is not resolved: no customer name; else no product found
   * and no request to create one; else a product to create without a
   * positive sale price; else a product to create without a name.
   */
  lemma {:induction false} SkipReasons(b: Books, req: ItemRequest, today: Day)
    ensures var r := Resolve(b, req, today).1;
            var found := FindProduct(b.products, req.productId, Strip(req.product));
            (r == Unresolved(MissingCustomer) <==> Strip(req.customer) == "")
            && (r == Unresolved(UnresolvedProduct) <==>
                  Strip(req.customer) != "" && found.None? && !req.createIfMissing)
            && (r == Unresolved(MissingSalePrice) <==>
                  Strip(req.customer) != "" && found.None? && req.createIfMissing && Strip(req.product) != ""
                  && !(req.salePrice.Some? && req.salePrice.value > 0.0))
            && (r == Unresolved(EmptyProductName) <==>
                  Strip(req.customer) != "" && found.None? && req.createIfMissing && Strip(req.product) == "")
  {
    ResolveVerdict(b, req, today);
  }

  /** The verdict on a line depends on the stored products only through the lookup and the name check. */
  lemma ResolveVerdict(b: Books, req: ItemRequest, today: Day)
    ensures var pname := Strip(req.product);
            var found := FindProduct(b.products, req.productId, pname);
            var failure := ProductFailure(found, req, pname, NameTaken(b.products, pname));
            var r := Resolve(b, req, today).1;
            (Strip(req.customer) == "" ==> r == Unresolved(MissingCustomer))
            && (Strip(req.customer) != "" && failure.Some? ==> r == Unresolved(failure.value))
            && (Strip(req.customer) != "" && failure.None? ==> r.Resolved?)
  {
    if Strip(req.customer) != "" {
      assert EnsureCustomer(b, Strip(req.customer)).0.products == b.products;
    }
  }

  /**
   * A line that passes those checks and names no stored product fails
   * when its name is already stored, which only a line giving an id that
   * is not stored can reach; a line none of the failures apply to is
   * resolved.
   */
  lemma {:induction false} ClashReason(b: Books, req: ItemRequest, today: Day)
    ensures var r := Resolve(b, req, today).1;
            var found := FindProduct(b.products, req.productId, Strip(req.product));
            var creates := Strip(req.customer) != "" && found.None? && req.createIfMissing && Strip(req.product) != ""
                           && req.salePrice.Some? && req.salePrice.value > 0.0;
            (r == Unresolved(NameInUse) <==>
               creates && exists k :: k in b.products.rows && b.products.rows[k].name == Strip(req.product))
            && (r == Unresolved(NameInUse) ==> req.productId != 0)
            && (r.Resolved? <==>
                  (Strip(req.customer) != "" && found.Some?)
                  || (creates && forall k :: k in b.products.rows ==> b.products.rows[k].name != Strip(req.product)))
  {
    var pname := Strip(req.product);
    var found := FindProduct(b.products, req.productId, pname);
    ResolveVerdict(b, req, today);
    NameTakenExact(b.products, pname);
    if Strip(req.customer) != "" && req.productId == 0 && NameTaken(b.products, pname) {
      FindProductExact(b.products, req.productId, pname);
      var k :| k in b.products.rows && b.products.rows[k].name == pname;
      assert SameName(b.products.rows[k], pname);
    }
  }

  /** Resolving a line keeps product names unique: it creates a product only under a name not yet stored. */
  lemma ResolveKeepsNamesUnique(b: Books, req: ItemRequest, today: Day)
    requires UniqueNames(b.products)
    ensures UniqueNames(Resolve(b, req, today).0.products)
  {
    var name := Strip(req.customer);
    if name != "" {
      var b1 := EnsureCustomer(b, name).0;
      var pname := Strip(req.product);
      var found := FindProduct(b1.products, req.productId, pname);
      if found.None? && req.createIfMissing && pname != "" && req.salePrice.Some? && req.salePrice.value > 0.0
         && !NameTaken(b1.products, pname) {
        NameTakenExact(b1.products, pname);
        var created := CreateProduct(b1, pname, req.salePrice.value, OrText(OrText(req.defaultUnit, req.unit), "kg"), today);
        assert Resolve(b, req, today).0 == created.0;
        NewNameKeepsUnique(b1.products, created.0.products, pname);
      }
    }
  }

  /** Adding one product under a name no product has keeps the names unique. */
  lemma NewNameKeepsUnique(products: ValidTable<Product>, products': ValidTable<Product>, name: string)
    requires forall k :: k in products.rows ==> products.rows[k].name != name
    requires products.next in products'.rows && products'.rows[products.next].name == name
    requires products'.rows == products.rows[products.next := products'.rows[products.next]]
    ensures UniqueNames(products) ==> UniqueNames(products')
  {
  }


  /**
   * Storing a resolved line, and on an emitted order its charge, priced by
   * the ladder for the line's charged unit and the requested variant.
   */
  function Append(b: Books, orderId: nat, emitted: bool, customerId: nat, productId: nat, req: ItemRequest): (r: Books)
    requires productId in b.products.rows
    ensures ValidOutcome(b, r, None, orderId, emitted)
  {
    var line := NewLine(orderId, customerId, productId, b.products.rows[productId], req);
    var b' := b.(items := Insert(b.items, line));
    if emitted then
      var price := UnitPrice(b.tiers, b.catalog, productId, line.chargedUnit, req.variantId, req.qty, req.saleUnitPrice);
      b'.(charges := Insert(b.charges, LineCharge(orderId, b.items.next, line, line.chargedUnit, price)))
    else b'
  }

  /**
   * The charge created at once carries the new line's customer, product,
   * quantities and charged unit, and the ladder's price for them.
   */
  lemma EmittedChargePriced(b: Books, orderId: nat, customerId: nat, productId: nat, req: ItemRequest)
    requires productId in b.products.rows
    ensures var r := Append(b, orderId, true, customerId, productId, req);
            b.items.next in r.items.rows && b.charges.next in r.charges.rows
            && var line := r.items.rows[b.items.next];
               var c := r.charges.rows[b.charges.next];
               c.unitPrice == UnitPrice(b.tiers, b.catalog, productId, line.chargedUnit, req.variantId, req.qty, req.saleUnitPrice)
               && c.customerId == line.customerId && c.productId == line.productId && c.qty == req.qty
               && c.chargedQty == line.chargedQty && c.unit == line.chargedUnit
  {
  }

  /**
   * One submitted line of `add_items_to_current_draft` or
   * `add_items_to_order`: skipped with its reason, or stored.
   */
  function AddItem(b: Books, orderId: nat, emitted: bool, req: ItemRequest, idx: int, today: Day): (r: (Books, Option<Skip>))
    ensures ValidOutcome(b, r.0, r.1, orderId, emitted)
    ensures r.1.Some? ==> Resolve(b, req, today).1.Unresolved?
                          && r.1.value == Skip(if req.lineIndex.Some? then req.lineIndex.value else idx, Resolve(b, req, today).1.reason)
  {
    var res := Resolve(b, req, today);
    if res.1.Unresolved? then (res.0, Some(Skip(if req.lineIndex.Some? then req.lineIndex.value else idx, res.1.reason)))
    else (Append(res.0, orderId, emitted, res.1.customerId, res.1.productId, req), None)
  }

  /**
   * The whole loop over the submitted lines: the tables afterwards, the
   * number inserted and the skipped entries in order. Every line is either
   * inserted or skipped, once.
   */
  function AddItems(b: Books, orderId: nat, emitted: bool, reqs: seq<ItemRequest>, today: Day)
    : (r: (Books, nat, seq<Skip>))
    ensures r.1 + |r.2| == |reqs|
  {
    if reqs == [] then (b, 0, [])
    else
      var prev := AddItems(b, orderId, emitted, reqs[..|reqs| - 1], today);
      Counted(prev, AddItem(prev.0, orderId, emitted, reqs[|reqs| - 1], |reqs| - 1, today))
  }

  /** The loop's state after one more line: its tables, and the line counted as inserted or skipped. */
  function Counted(prev: (Books, nat, seq<Skip>), step: (Books, Option<Skip>)): (r: (Books, nat, seq<Skip>))
    ensures r.1 + |r.2| == prev.1 + |prev.2| + 1
  {
    if step.1.Some? then (step.0, prev.1, prev.2 + [step.1.value])
    else (step.0, prev.1 + 1, prev.2)
  }

  lemma AddItemsStep(b: Books, orderId: nat, emitted: bool, reqs: seq<ItemRequest>, i: nat, today: Day,
                     state: (Books, nat, seq<Skip>))
    requires i < |reqs| && state == AddItems(b, orderId, emitted, reqs[..i], today)
    ensures AddItems(b, orderId, emitted, reqs[..i + 1], today)
            == Counted(state, AddItem(state.0, orderId, emitted, reqs[i], i, today))
  {
    PrefixSnoc(reqs, i);
    AddItemsSnoc(b, orderId, emitted, reqs[..i], reqs[i], today);
  }

  /** The fold over the submitted lines, one line longer. */
  lemma AddItemsSnoc(b: Books, orderId: nat, emitted: bool, init: seq<ItemRequest>, req: ItemRequest, today: Day)
    ensures AddItems(b, orderId, emitted, init + [req], today)
            == Counted(AddItems(b, orderId, emitted, init, today),
                       AddItem(AddItems(b, orderId, emitted, init, today).0, orderId, emitted, req, |init|, today))
  {
    var s := init + [req];
    assert s[..|s| - 1] == init && s[|s| - 1] == req;
  }

  /** Adding lines keeps product names unique, whatever lines are submitted. */
  lemma {:induction false} AddItemsKeepsNamesUnique(b: Books, orderId: nat, emitted: bool, reqs: seq<ItemRequest>, today: Day)
    requires UniqueNames(b.products)
    ensures UniqueNames(AddItems(b, orderId, emitted, reqs, today).0.products)
  {
    if reqs != [] {
      var init := reqs[..|reqs| - 1];
      var prev := AddItems(b, orderId, emitted, init, today);
      AddItemsKeepsNamesUnique(b, orderId, emitted, init, today);
      ResolveKeepsNamesUnique(prev.0, reqs[|reqs| - 1], today);
    }
  }

  /** Some line of the request ran into a product name already stored. */
  predicate Conflicted(skipped: seq<Skip>)
  {
    skipped != [] && (skipped[|skipped| - 1].reason == NameInUse || Conflicted(skipped[..|skipped| - 1]))
  }

  /** The line gives a product id, and that id is not a stored product. */
  predicate StaleId(products: ValidTable<Product>, req: ItemRequest)
  {
    req.productId != 0 && !(req.productId > 0 && req.productId as nat in products.rows)
  }

  /** Some line of the request has a stale product id. */
  predicate HasStaleId(products: ValidTable<Product>, reqs: seq<ItemRequest>)
  {
    reqs != [] && (StaleId(products, reqs[|reqs| - 1]) || HasStaleId(products, reqs[..|reqs| - 1]))
  }

  /** A request runs into a stored name only through a line giving a product id that is not stored. */
  lemma {:induction false} ConflictNeedsStaleId(b: Books, orderId: nat, emitted: bool, reqs: seq<ItemRequest>, today: Day)
    ensures Conflicted(AddItems(b, orderId, emitted, reqs, today).2) ==> HasStaleId(b.products, reqs)
  {
    if reqs != [] {
      var init := reqs[..|reqs| - 1];
      var last := reqs[|reqs| - 1];
      var prev := AddItems(b, orderId, emitted, init, today);
      var step := AddItem(prev.0, orderId, emitted, last, |reqs| - 1, today);
      ConflictNeedsStaleId(b, orderId, emitted, init, today);
      ConflictedCounted(prev, step);
      ClashFromStaleId(prev.0, orderId, emitted, last, |reqs| - 1, today);
      ProductsOnlyGrow(b, orderId, emitted, init, today);
    }
  }

  lemma ConflictedCounted(prev: (Books, nat, seq<Skip>), step: (Books, Option<Skip>))
    ensures Conflicted(Counted(prev, step).2) ==> Conflicted(prev.2) || (step.1.Some? && step.1.value.reason == NameInUse)
  {
    if step.1.Some? {
      assert (prev.2 + [step.1.value])[..|prev.2|] == prev.2;
    }
  }

  /** A line skipped for a stored name gave a product id that is not stored. */
  lemma ClashFromStaleId(b: Books, orderId: nat, emitted: bool, req: ItemRequest, idx: int, today: Day)
    ensures var step := AddItem(b, orderId, emitted, req, idx, today);
            step.1.Some? && step.1.value.reason == NameInUse ==> StaleId(b.products, req)
  {
    ClashReason(b, req, today);
    FindProductExact(b.products, req.productId, Strip(req.product));
  }

  /** Adding lines never removes a product. */
  lemma {:induction false} ProductsOnlyGrow(b: Books, orderId: nat, emitted: bool, reqs: seq<ItemRequest>, today: Day)
    ensures b.products.rows.Keys <= AddItems(b, orderId, emitted, reqs, today).0.products.rows.Keys
  {
    if reqs != [] {
      var init := reqs[..|reqs| - 1];
      var prev := AddItems(b, orderId, emitted, init, today);
      ProductsOnlyGrow(b, orderId, emitted, init, today);
      ResolveKeepsProducts(prev.0, reqs[|reqs| - 1], today);
    }
  }

  /** Resolving a line keeps every stored product. */
  lemma ResolveKeepsProducts(b: Books, req: ItemRequest, today: Day)
    ensures b.products.rows.Keys <= Resolve(b, req, today).0.products.rows.Keys
  {
    var name := Strip(req.customer);
    if name != "" {
      var b1 := EnsureCustomer(b, name).0;
      assert b1.products == b.products;
      var pname := Strip(req.product);
      var found := FindProduct(b1.products, req.productId, pname);
      if ProductFailure(found, req, pname, NameTaken(b1.products, pname)).None? && found.None? {
        var created := CreateProduct(b1, pname, req.salePrice.value, OrText(OrText(req.defaultUnit, req.unit), "kg"), today);
        assert Resolve(b, req, today).0 == created.0;
      }
    }
  }

  function OnOrder(orderId: int): OrderItem -> bool
  {
    (it: OrderItem) => it.orderId == orderId
  }

  /**
   * Adding lines appends exactly `inserted` lines, all of this order, and
   * leaves every existing line as it was.
   */
  lemma {:induction false} AddItemsLines(b: Books, orderId: nat, emitted: bool, reqs: seq<ItemRequest>, today: Day)
    ensures Extends(b.items, AddItems(b, orderId, emitted, reqs, today).0.items,
                    AddItems(b, orderId, emitted, reqs, today).1, OnOrder(orderId))
  {
    if reqs != [] {
      var init := reqs[..|reqs| - 1];
      var prev := AddItems(b, orderId, emitted, init, today);
      var step := AddItem(prev.0, orderId, emitted, reqs[|reqs| - 1], |reqs| - 1, today);
      AddItemsLines(b, orderId, emitted, init, today);
      assert ValidOutcome(prev.0, step.0, step.1, orderId, emitted);
      if step.1.Some? {
        ExtendsSelf(prev.0.items, OnOrder(orderId));
        ExtendsTrans(b.items, prev.0.items, step.0.items, prev.1, 0, OnOrder(orderId));
      } else {
        ExtendsByInsert(prev.0.items, step.0.items.rows[prev.0.items.next], OnOrder(orderId));
        ExtendsTrans(b.items, prev.0.items, step.0.items, prev.1, 1, OnOrder(orderId));
      }
    }
  }

  /**
   * `charges` is `c0` plus one fresh charge of `orderId` for each line
   * appended from id `firstLine` on, in the same order.
   */
  ghost predicate ChargedLines(c0: Table<Charge>, charges: Table<Charge>, firstLine: nat, orderId: nat)
  {
    charges.next >= c0.next
    && (forall k :: k in c0.rows ==> k in charges.rows && charges.rows[k] == c0.rows[k])
    && (forall k :: k in charges.rows ==> k in c0.rows || c0.next <= k)
    && (forall k :: c0.next <= k < charges.next ==>
          k in charges.rows && FreshCharge(charges.rows[k], orderId)
          && charges.rows[k].orderItemId == firstLine + (k - c0.next))
  }

  /**
   * On an emitted order every inserted line gets exactly one fresh pending
   * charge pointing at it; on any other order no charge is created.
   */
  lemma {:induction false} AddItemsCharges(b: Books, orderId: nat, emitted: bool, reqs: seq<ItemRequest>, today: Day)
    ensures !emitted ==> AddItems(b, orderId, emitted, reqs, today).0.charges == b.charges
    ensures emitted ==>
              AddItems(b, orderId, emitted, reqs, today).0.charges.next == b.charges.next + AddItems(b, orderId, emitted, reqs, today).1
              && ChargedLines(b.charges, AddItems(b, orderId, emitted, reqs, today).0.charges, b.items.next, orderId)
  {
    if reqs != [] {
      var init := reqs[..|reqs| - 1];
      var prev := AddItems(b, orderId, emitted, init, today);
      AddItemsCharges(b, orderId, emitted, init, today);
      AddItemsLines(b, orderId, emitted, init, today);
      var step := AddItem(prev.0, orderId, emitted, reqs[|reqs| - 1], |reqs| - 1, today);
      assert ValidOutcome(prev.0, step.0, step.1, orderId, emitted);
      if emitted && step.1.None? {
        ChargedLinesStep(b.charges, prev.0.charges, b.items.next, orderId, step.0.charges.rows[prev.0.charges.next]);
      }
    }
  }

  lemma ChargedLinesStep(c0: Table<Charge>, charges: Table<Charge>, firstLine: nat, orderId: nat, c: Charge)
    requires WellFormed(charges) && ChargedLines(c0, charges, firstLine, orderId)
    requires FreshCharge(c, orderId) && c.orderItemId == firstLine + (charges.next - c0.next)
    ensures ChargedLines(c0, Insert(charges, c), firstLine, orderId)
  {
  }

  /** The tables of the store that adding lines works on. */
  function BooksOf(db: Store): Books
    reads db
  {
    Books(db.customers, db.products, db.catalog, db.variants, db.tiers, db.items, db.charges)
  }

  method Save(db: Store, b: Books)
    modifies db`customers, db`products, db`catalog, db`variants, db`tiers, db`items, db`charges
    ensures BooksOf(db) == b
  {
    db.customers := b.customers;
    db.products := b.products;
    db.catalog := b.catalog;
    db.variants := b.variants;
    db.tiers := b.tiers;
    db.items := b.items;
    db.charges := b.charges;
  }

  /** The item loop shared by both endpoints, with its `inserted` and `skipped` counters. */
  method RunItems(b0: Books, orderId: nat, emitted: bool, reqs: seq<ItemRequest>, today: Day)
    returns (b: Books, inserted: nat, skipped: seq<Skip>)
    ensures (b, inserted, skipped) == AddItems(b0, orderId, emitted, reqs, today)
  {
    b, inserted, skipped := b0, 0, [];
    var i := 0;
    while i < |reqs|
      invariant 0 <= i <= |reqs|
      invariant (b, inserted, skipped) == AddItems(b0, orderId, emitted, reqs[..i], today)
    {
      var step := AddItem(b, orderId, emitted, reqs[i], i, today);
      AddItemsStep(b0, orderId, emitted, reqs, i, today, (b, inserted, skipped));
      var next := Counted((b, inserted, skipped), step);
      b, inserted, skipped := next.0, next.1, next.2;
      i := i + 1;
    }
    assert reqs[..|reqs|] == reqs;
  }

  /**
   * What adding lines answers: 404 for an unknown order, 500 when a
   * product insert failed on a name already stored, otherwise the counts.
   */
  datatype Added = OrderNotFound | NameConflict | Added(inserted: nat, skipped: seq<Skip>)

  /**
   * The item loop run against the store. When a line tried to create a
   * product under a stored name, the insert raised and the request's
   * changes are rolled back.
   */
  method InsertItems(db: Store, orderId: nat, emitted: bool, reqs: seq<ItemRequest>, today: Day) returns (r: Added)
    modifies db`customers, db`products, db`catalog, db`variants, db`tiers, db`items, db`charges
    ensures var res := AddItems(old(BooksOf(db)), orderId, emitted, reqs, today);
            if Conflicted(res.2) then r == NameConflict && BooksOf(db) == old(BooksOf(db))
            else r == Added(res.1, res.2) && BooksOf(db) == res.0
  {
    var b, inserted, skipped := RunItems(BooksOf(db), orderId, emitted, reqs, today);
    if Conflicted(skipped) {
      return NameConflict;
    }
    Save(db, b);
    r := Added(inserted, skipped);
  }

  /** `POST /orders/draft/items`: lines go to the current draft (created and committed if needed) and are not charged. */
  method AddItemsToCurrentDraft(db: Store, reqs: seq<ItemRequest>, today: Day) returns (orderId: nat, r: Added)
    modifies db`orders, db`customers, db`products, db`catalog, db`variants, db`tiers, db`items, db`charges
    ensures (orderId, db.orders) == old(DraftFor(db.orders, today))
    ensures var res := AddItems(old(BooksOf(db)), orderId, false, reqs, today);
            if Conflicted(res.2) then r == NameConflict && BooksOf(db) == old(BooksOf(db))
            else r == Added(res.1, res.2) && BooksOf(db) == res.0
  {
    ghost var b0 := BooksOf(db);
    var d := GetDraft(db, true, today);
    orderId := d.value;
    assert BooksOf(db) == b0;
    r := InsertItems(db, orderId, false, reqs, today);
  }

  /**
   * `POST /orders/{id}/items`: 404 for an unknown order; otherwise lines
   * are added, and charged at once when the order is emitted.
   */
  method AddItemsToOrder(db: Store, orderId: int, reqs: seq<ItemRequest>, today: Day) returns (r: Added)
    modifies db`customers, db`products, db`catalog, db`variants, db`tiers, db`items, db`charges
    ensures !(orderId >= 0 && orderId as nat in old(db.orders.rows)) ==> r == OrderNotFound && unchanged(db)
    ensures orderId >= 0 && orderId as nat in old(db.orders.rows) ==>
              var emitted := old(db.orders.rows[orderId as nat].status) == Emitted;
              var res := AddItems(old(BooksOf(db)), orderId as nat, emitted, reqs, today);
              if Conflicted(res.2) then r == NameConflict && BooksOf(db) == old(BooksOf(db))
              else BooksOf(db) == res.0 && r == Added(res.1, res.2)
  {
    if !(orderId >= 0 && orderId as nat in db.orders.rows) {
      return OrderNotFound;
    }
    var emitted := db.orders.rows[orderId as nat].status == Emitted;
    r := InsertItems(db, orderId as nat, emitted, reqs, today);
  }

  // ---------------------------------------------------------------------
  // Confirming the draft

  function OfOrder(orderId: int): Charge -> bool
  {
    (c: Charge) => c.orderId == orderId
  }

  /** Some charge already belongs to the order. */
  predicate HasCharges(charges: ValidTable<Charge>, orderId: int)
  {
    Select(charges, OfOrder(orderId)) != []
  }

  lemma {:induction false} HasChargesExact(charges: ValidTable<Charge>, orderId: int)
    ensures HasCharges(charges, orderId) <==> exists k :: k in charges.rows && charges.rows[k].orderId == orderId
  {
    SelectExact(charges, OfOrder(orderId));
    if HasCharges(charges, orderId) {
      assert Select(charges, OfOrder(orderId))[0] in charges.rows;
    }
    if exists k :: k in charges.rows && charges.rows[k].orderId == orderId {
      var k :| k in charges.rows && charges.rows[k].orderId == orderId;
      assert k in Select(charges, OfOrder(orderId));
    }
  }

  /** The charge confirm generates for a line: priced in its charged unit (else its unit, else kg) and stored variant. */
  function ConfirmCharge(tiers: ValidTable<PriceTier>, catalog: ValidTable<CatalogPrice>, orderId: nat, lineId: nat,
                         line: OrderItem): (c: Charge)
    ensures FreshCharge(c, orderId) && c.orderItemId == lineId
    ensures c.customerId == line.customerId && c.productId == line.productId && c.qty == line.qty
    ensures c.unit == OrText(OrText(line.chargedUnit, line.unit), "kg")
  {
    var unit := OrText(OrText(line.chargedUnit, line.unit), "kg");
    LineCharge(orderId, lineId, line, unit, UnitPrice(tiers, catalog, line.productId, unit, line.variantId, line.qty, line.saleUnitPrice))
  }

  /** The charges for the lines `ids`, in that order. */
  function ConfirmCharges(tiers: ValidTable<PriceTier>, catalog: ValidTable<CatalogPrice>, items: ValidTable<OrderItem>,
                          orderId: nat, ids: seq<nat>): (r: seq<Charge>)
    requires forall i :: 0 <= i < |ids| ==> ids[i] in items.rows
    ensures |r| == |ids|
  {
    if ids == [] then []
    else
      ConfirmCharges(tiers, catalog, items, orderId, ids[..|ids| - 1])
      + [ConfirmCharge(tiers, catalog, orderId, ids[|ids| - 1], items.rows[ids[|ids| - 1]])]
  }

  /** `c` is the fresh charge of order `orderId` for line `lineId`, carrying its customer, product and quantity. */
  predicate ChargeOfLine(c: Charge, orderId: nat, lineId: nat, line: OrderItem)
  {
    FreshCharge(c, orderId) && c.orderItemId == lineId
    && c.customerId == line.customerId && c.productId == line.productId && c.qty == line.qty
  }

  /** Exactly one fresh charge per line, in line order. */
  lemma {:induction false} ConfirmChargesShape(tiers: ValidTable<PriceTier>, catalog: ValidTable<CatalogPrice>,
                                               items: ValidTable<OrderItem>, orderId: nat, ids: seq<nat>)
    requires forall i :: 0 <= i < |ids| ==> ids[i] in items.rows
    ensures forall i :: 0 <= i < |ids| ==>
              ChargeOfLine(ConfirmCharges(tiers, catalog, items, orderId, ids)[i], orderId, ids[i], items.rows[ids[i]])
  {
    if ids != [] {
      var init := ids[..|ids| - 1];
      var lastId := ids[|ids| - 1];
      assert ids == init + [lastId];
      ConfirmChargesShape(tiers, catalog, items, orderId, init);
      ConfirmChargesSnoc(tiers, catalog, items, orderId, ids);
      ChargesShapeStep(items, orderId, ids, init, lastId, ConfirmCharges(tiers, catalog, items, orderId, init),
                       ConfirmCharge(tiers, catalog, orderId, lastId, items.rows[lastId]),
                       ConfirmCharges(tiers, catalog, items, orderId, ids));
    }
  }

  /** The charges for a non-empty list of lines: those for all but the last, then the last line's. */
  lemma ConfirmChargesSnoc(tiers: ValidTable<PriceTier>, catalog: ValidTable<CatalogPrice>, items: ValidTable<OrderItem>,
                           orderId: nat, ids: seq<nat>)
    requires ids != [] && forall i :: 0 <= i < |ids| ==> ids[i] in items.rows
    ensures ConfirmCharges(tiers, catalog, items, orderId, ids)
            == ConfirmCharges(tiers, catalog, items, orderId, ids[..|ids| - 1])
               + [ConfirmCharge(tiers, catalog, orderId, ids[|ids| - 1], items.rows[ids[|ids| - 1]])]
  {
  }

  /** One more line, one more charge of it: the shape carries over from the shorter lists. */
  lemma ChargesShapeStep(items: ValidTable<OrderItem>, orderId: nat, ids: seq<nat>, init: seq<nat>, lastId: nat,
                         r0: seq<Charge>, last: Charge, r: seq<Charge>)
    requires ids == init + [lastId] && r == r0 + [last] && |r0| == |init|
    requires forall i :: 0 <= i < |ids| ==> ids[i] in items.rows
    requires lastId in items.rows && forall i :: 0 <= i < |init| ==> init[i] in items.rows
    requires forall i :: 0 <= i < |init| ==> ChargeOfLine(r0[i], orderId, init[i], items.rows[init[i]])
    requires ChargeOfLine(last, orderId, lastId, items.rows[lastId])
    ensures forall i :: 0 <= i < |ids| ==> ChargeOfLine(r[i], orderId, ids[i], items.rows[ids[i]])
  {
    forall i | 0 <= i < |ids|
      ensures ChargeOfLine(r[i], orderId, ids[i], items.rows[ids[i]])
    {
      if i < |init| {
        assert r[i] == r0[i] && ids[i] == init[i];
      } else {
        assert r[i] == last && ids[i] == lastId;
      }
    }
  }

  /** The lines of an order, in id order. */
  function LinesOf(items: ValidTable<OrderItem>, orderId: nat): (ids: seq<nat>)
    ensures forall i :: 0 <= i < |ids| ==> ids[i] in items.rows && items.rows[ids[i]].orderId == orderId
    ensures forall k :: k in items.rows && items.rows[k].orderId == orderId ==> k in ids
  {
    SelectExact(items, OnOrder(orderId));
    Select(items, OnOrder(orderId))
  }

  /** The charges after confirming order `orderId`: generated only when it has none yet. */
  function ConfirmedCharges(b: Books, orderId: nat): ValidTable<Charge>
  {
    if HasCharges(b.charges, orderId) then b.charges
    else InsertAll(b.charges, ConfirmCharges(b.tiers, b.catalog, b.items, orderId, LinesOf(b.items, orderId)))
  }

  /**
   * Confirming twice generates nothing the second time: once an order with
   * lines is confirmed it has charges.
   */
  lemma {:induction false} ConfirmOnce(b: Books, orderId: nat)
    requires LinesOf(b.items, orderId) != []
    ensures HasCharges(ConfirmedCharges(b, orderId), orderId)
    ensures ConfirmedCharges(b.(charges := ConfirmedCharges(b, orderId)), orderId) == ConfirmedCharges(b, orderId)
  {
    if !HasCharges(b.charges, orderId) {
      var cs := ConfirmCharges(b.tiers, b.catalog, b.items, orderId, LinesOf(b.items, orderId));
      ConfirmChargesShape(b.tiers, b.catalog, b.items, orderId, LinesOf(b.items, orderId));
      InsertAllRows(b.charges, cs);
      var t := InsertAll(b.charges, cs);
      assert b.charges.next in t.rows && t.rows[b.charges.next].orderId == orderId;
      HasChargesExact(t, orderId);
    }
  }

  /**
   * `t` is `t0` with one fresh charge of order `orderId` per line of `ids`,
   * in line order, at the ids that follow `t0`'s counter.
   */
  ghost predicate OnePerLine(t0: ValidTable<Charge>, t: ValidTable<Charge>, items: ValidTable<OrderItem>, orderId: nat, ids: seq<nat>)
    requires forall i :: 0 <= i < |ids| ==> ids[i] in items.rows
  {
    t.next == t0.next + |ids|
    && forall k :: t0.next <= k < t.next ==>
         k in t.rows && ChargeOfLine(t.rows[k], orderId, ids[k - t0.next], items.rows[ids[k - t0.next]])
  }

  /**
   * Confirming adds one charge per line of the order, unless the order
   * already has charges, in which case nothing is added.
   */
  lemma {:induction false} ConfirmAddsOnePerLine(b: Books, orderId: nat)
    ensures HasCharges(b.charges, orderId) ==> ConfirmedCharges(b, orderId) == b.charges
    ensures !HasCharges(b.charges, orderId) ==>
              OnePerLine(b.charges, ConfirmedCharges(b, orderId), b.items, orderId, LinesOf(b.items, orderId))
  {
    if !HasCharges(b.charges, orderId) {
      var ids := LinesOf(b.items, orderId);
      var cs := ConfirmCharges(b.tiers, b.catalog, b.items, orderId, ids);
      ConfirmChargesShape(b.tiers, b.catalog, b.items, orderId, ids);
      ChargesAtLines(b.charges, cs, b.items, orderId, ids);
    }
  }

  /** Inserting one charge per line in line order puts line `ids[i]`'s charge at the `i`-th new id. */
  lemma ChargesAtLines(charges: ValidTable<Charge>, recs: seq<Charge>, items: ValidTable<OrderItem>, orderId: nat, ids: seq<nat>)
    requires |recs| == |ids| && forall i :: 0 <= i < |ids| ==> ids[i] in items.rows
    requires forall i :: 0 <= i < |ids| ==> ChargeOfLine(recs[i], orderId, ids[i], items.rows[ids[i]])
    ensures OnePerLine(charges, InsertAll(charges, recs), items, orderId, ids)
  {
    forall k | charges.next <= k < charges.next + |ids|
      ensures k in InsertAll(charges, recs).rows
              && ChargeOfLine(InsertAll(charges, recs).rows[k], orderId, ids[k - charges.next], items.rows[ids[k - charges.next]])
    {
      InsertAllAt(charges, recs, k - charges.next);
    }
  }

  lemma ConfirmChargesStep(tiers: ValidTable<PriceTier>, catalog: ValidTable<CatalogPrice>, items: ValidTable<OrderItem>,
                           orderId: nat, ids: seq<nat>, i: nat)
    requires i < |ids| && forall j :: 0 <= j < |ids| ==> ids[j] in items.rows
    ensures ConfirmCharges(tiers, catalog, items, orderId, ids[..i + 1])
            == ConfirmCharges(tiers, catalog, items, orderId, ids[..i]) + [ConfirmCharge(tiers, catalog, orderId, ids[i], items.rows[ids[i]])]
  {
    assert ids[..i + 1][..i] == ids[..i];
  }

  /** The charge loop of confirm: one charge per line, inserted in line order. */
  method GenerateCharges(charges: ValidTable<Charge>, tiers: ValidTable<PriceTier>, catalog: ValidTable<CatalogPrice>,
                         items: ValidTable<OrderItem>, orderId: nat, ids: seq<nat>) returns (charges': ValidTable<Charge>)
    requires forall i :: 0 <= i < |ids| ==> ids[i] in items.rows
    ensures charges' == InsertAll(charges, ConfirmCharges(tiers, catalog, items, orderId, ids))
  {
    var cs: seq<Charge> := [];
    var i := 0;
    while i < |ids|
      invariant 0 <= i <= |ids|
      invariant cs == ConfirmCharges(tiers, catalog, items, orderId, ids[..i])
    {
      ConfirmChargesStep(tiers, catalog, items, orderId, ids, i);
      cs := cs + [ConfirmCharge(tiers, catalog, orderId, ids[i], items.rows[ids[i]])];
      i := i + 1;
    }
    assert ids[..|ids|] == ids;
    charges' := InsertAll(charges, cs);
  }

  /**
   * `POST /orders/draft/confirm`: takes the current draft (creating an
   * empty one if there is none), generates its charges unless it already
   * has some, and marks it emitted.
   */
  method ConfirmDraft(db: Store, today: Day) returns (orderId: nat)
    modifies db`orders, db`charges
    ensures orderId == old(DraftFor(db.orders, today)).0
    ensures db.orders == Update(old(DraftFor(db.orders, today)).1, orderId, old(DraftFor(db.orders, today)).1.rows[orderId].(status := Emitted))
    ensures db.charges == ConfirmedCharges(old(BooksOf(db)), orderId)
  {
    var d := GetDraft(db, true, today);
    orderId := d.value;
    ghost var b := BooksOf(db);
    assert b == old(BooksOf(db));
    if !HasCharges(db.charges, orderId) {
      db.charges := GenerateCharges(db.charges, db.tiers, db.catalog, db.items, orderId, LinesOf(db.items, orderId));
    }
    db.orders := Update(db.orders, orderId, db.orders.rows[orderId].(status := Emitted));
  }

  // ---------------------------------------------------------------------
  // Deleting a line

  /** The charges that do not point at line `lineId`. */
  function WithoutLine(charges: map<nat, Charge>, lineId: int): (m: map<nat, Charge>)
    ensures forall k :: k in m <==> k in charges && charges[k].orderItemId != lineId
    ensures forall k :: k in m ==> m[k] == charges[k]
  {
    map k | k in charges && charges[k].orderItemId != lineId :: charges[k]
  }

  function OnLine(lineId: int): Charge -> bool
  {
    (c: Charge) => c.orderItemId == lineId
  }

  /** The loop deleting charges one by one: the given ids are gone, everything else stays. */
  method RemoveAll(t: ValidTable<Charge>, ids: seq<nat>) returns (t': ValidTable<Charge>)
    ensures t'.next == t.next
    ensures forall k :: k in t'.rows <==> k in t.rows && k !in ids
    ensures forall k :: k in t'.rows ==> t'.rows[k] == t.rows[k]
  {
    t' := t;
    var i := 0;
    while i < |ids|
      invariant 0 <= i <= |ids|
      invariant t'.next == t.next
      invariant forall k :: k in t'.rows <==> k in t.rows && k !in ids[..i]
      invariant forall k :: k in t'.rows ==> t'.rows[k] == t.rows[k]
    {
      assert ids[..i + 1] == ids[..i] + [ids[i]];
      t' := Remove(t', ids[i]);
      i := i + 1;
    }
    assert ids[..|ids|] == ids;
  }

  /**
   * `DELETE /orders/{id}/items/{item}`: 404 unless the order exists and the
   * line belongs to it; otherwise every charge pointing at the line is
   * removed, then the line.
   */
  method DeleteOrderItem(db: Store, orderId: int, itemId: int) returns (ok: bool)
    modifies db`items, db`charges
    ensures ok <==> orderId >= 0 && orderId as nat in old(db.orders.rows)
                    && itemId >= 0 && itemId as nat in old(db.items.rows)
                    && old(db.items.rows[itemId as nat].orderId) == orderId
    ensures !ok ==> unchanged(db)
    ensures ok ==> db.items == Remove(old(db.items), itemId as nat)
    ensures ok ==> db.charges == Table(WithoutLine(old(db.charges.rows), itemId), old(db.charges.next))
  {
    if !(orderId >= 0 && orderId as nat in db.orders.rows && itemId >= 0 && itemId as nat in db.items.rows
         && db.items.rows[itemId as nat].orderId == orderId) {
      return false;
    }
    var ids := Select(db.charges, OnLine(itemId));
    SelectExact(db.charges, OnLine(itemId));
    var kept := RemoveAll(db.charges, ids);
    assert kept.rows == WithoutLine(db.charges.rows, itemId);
    db.charges := kept;
    db.items := Remove(db.items, itemId as nat);
    ok := true;
  }

  // ---------------------------------------------------------------------
  // Order detail totals

  function QtyOf(it: OrderItem): real
  {
    it.qty
  }

  function ProductKey(it: OrderItem): int
  {
    it.productId
  }

  function CustomerKey(it: OrderItem): int
  {
    it.customerId
  }

  /** The ordered quantity of product `p` in unit `u`. */
  function QtyIn(items: seq<OrderItem>, p: int, u: string): real
  {
    if items == [] then 0.0
    else
      var it := items[|items| - 1];
      QtyIn(items[..|items| - 1], p, u) + (if it.productId == p && it.unit == u then it.qty else 0.0)
  }

  /** The bucket a product group starts with. */
  function NewBuckets(): map<string, real>
  {
    map["kg" := 0.0, "unit" := 0.0, "g" := 0.0]
  }

  /** One line added to the groups: its quantity goes to its product's bucket for its unit. */
  function GroupAdd(m: map<int, map<string, real>>, it: OrderItem): (m': map<int, map<string, real>>)
    ensures m'.Keys == m.Keys + {it.productId}
  {
    var gp := if it.productId in m then m[it.productId] else NewBuckets();
    m[it.productId := gp[it.unit := (if it.unit in gp then gp[it.unit] else 0.0) + it.qty]]
  }

  /** The grouped totals: per product, the ordered quantity per unit, `kg`, `unit` and `g` always present. */
  function UnitTotals(items: seq<OrderItem>): map<int, map<string, real>>
  {
    if items == [] then map[]
    else GroupAdd(UnitTotals(items[..|items| - 1]), items[|items| - 1])
  }

  /** Grouping one line more adds its quantity to its product's bucket for its unit. */
  lemma UnitTotalsPrefix(items: seq<OrderItem>, i: nat)
    requires i < |items|
    ensures UnitTotals(items[..i + 1]) == GroupAdd(UnitTotals(items[..i]), items[i])
  {
    assert items[..i + 1][..i] == items[..i];
  }

  /** Exactly the products with a line have a group. */
  lemma {:induction false} UnitTotalsProducts(items: seq<OrderItem>)
    ensures forall p :: p in UnitTotals(items) <==> exists i :: 0 <= i < |items| && items[i].productId == p
  {
    if items != [] {
      var init := items[..|items| - 1];
      var it := items[|items| - 1];
      UnitTotalsProducts(init);
      assert UnitTotals(items).Keys == UnitTotals(init).Keys + {it.productId};
      forall p ensures p in UnitTotals(items) <==> exists i :: 0 <= i < |items| && items[i].productId == p {
        if p in UnitTotals(init) {
          var i :| 0 <= i < |init| && init[i].productId == p;
          assert items[i] == init[i];
        } else if p != it.productId {
          forall i | 0 <= i < |items| ensures items[i].productId != p {
            if i < |init| {
              assert items[i] == init[i];
            }
          }
        }
      }
    }
  }

  /** Each group holds the three standard units plus every unit its lines use. */
  lemma {:induction false} UnitTotalsBuckets(items: seq<OrderItem>)
    ensures forall p :: p in UnitTotals(items) ==>
              "kg" in UnitTotals(items)[p] && "unit" in UnitTotals(items)[p] && "g" in UnitTotals(items)[p]
    ensures forall i :: 0 <= i < |items| ==>
              items[i].productId in UnitTotals(items) && items[i].unit in UnitTotals(items)[items[i].productId]
  {
    if items != [] {
      var init := items[..|items| - 1];
      UnitTotalsBuckets(init);
      assert forall i :: 0 <= i < |init| ==> items[i] == init[i];
    }
  }

  /**
   * Each bucket is its product's ordered quantity in its unit, and a
   * product and unit without a bucket have no quantity ordered.
   */
  lemma {:induction false} UnitTotalsQuantities(items: seq<OrderItem>)
    ensures forall p, u :: p in UnitTotals(items) && u in UnitTotals(items)[p] ==> UnitTotals(items)[p][u] == QtyIn(items, p, u)
    ensures forall p, u :: !(p in UnitTotals(items) && u in UnitTotals(items)[p]) ==> QtyIn(items, p, u) == 0.0
  {
    if items != [] {
      var init := items[..|items| - 1];
      UnitTotalsQuantities(init);
      forall p, u ensures QtyIn(items, p, u) == QtyIn(init, p, u) + (if items[|items| - 1].productId == p && items[|items| - 1].unit == u then items[|items| - 1].qty else 0.0) {
      }
    }
  }

  datatype Bought = Bought(kg: real, unit: real, g: real)

  function PurchaseKey(p: Purchase): int
  {
    p.productId
  }

  function DirectKg(p: Purchase): real
  {
    OrZero(p.qtyKg)
  }

  function DirectUnits(p: Purchase): real
  {
    OrZero(p.qtyUnit)
  }

  /** The purchased totals per product: direct kilos and units only, the gram bucket never filled. */
  function PurchasedByProduct(purchases: seq<Purchase>): map<int, Bought>
  {
    if purchases == [] then map[]
    else
      var m := PurchasedByProduct(purchases[..|purchases| - 1]);
      var p := purchases[|purchases| - 1];
      var d := if p.productId in m then m[p.productId] else Bought(0.0, 0.0, 0.0);
      m[p.productId := Bought(d.kg + DirectKg(p), d.unit + DirectUnits(p), d.g)]
  }

  /**
   * One entry per purchased product, holding that product's direct kilos
   * and units; equivalent quantities are not counted and grams stay 0.
   */
  lemma {:induction false} PurchasedByProductExact(purchases: seq<Purchase>)
    ensures forall p :: p in PurchasedByProduct(purchases) <==> p in KeysOf(purchases, PurchaseKey)
    ensures forall p :: p in PurchasedByProduct(purchases) ==>
              PurchasedByProduct(purchases)[p] ==
              Bought(SumFor(purchases, PurchaseKey, p, DirectKg), SumFor(purchases, PurchaseKey, p, DirectUnits), 0.0)
  {
    if purchases != [] {
      var init := purchases[..|purchases| - 1];
      var k := purchases[|purchases| - 1].productId;
      PurchasedByProductExact(init);
      KeysOfExact(init, PurchaseKey);
      if k !in KeysOf(init, PurchaseKey) {
        SumForAbsent(init, PurchaseKey, k, DirectKg);
        SumForAbsent(init, PurchaseKey, k, DirectUnits);
      }
    }
  }

  /** The quantity totals of `order_detail`. */
  datatype Detail = Detail(
    byProduct: map<int, real>, byCustomer: map<int, real>,
    groups: map<int, map<string, real>>, purchased: map<int, Bought>)

  /**
   * The per-product and per-customer quantities each add up to the order's
   * total ordered quantity.
   */
  lemma {:induction false} DetailTotalsAgree(items: seq<OrderItem>)
    ensures forall i :: 0 <= i < |KeysOf(items, ProductKey)| ==> KeysOf(items, ProductKey)[i] in Tally(items, ProductKey, QtyOf)
    ensures forall i :: 0 <= i < |KeysOf(items, CustomerKey)| ==> KeysOf(items, CustomerKey)[i] in Tally(items, CustomerKey, QtyOf)
    ensures Sum(ValuesAt(Tally(items, ProductKey, QtyOf), KeysOf(items, ProductKey))) == SumOf(items, QtyOf)
    ensures Sum(ValuesAt(Tally(items, CustomerKey, QtyOf), KeysOf(items, CustomerKey))) == SumOf(items, QtyOf)
  {
    TallyAddsUp(items, ProductKey, QtyOf);
    TallyAddsUp(items, CustomerKey, QtyOf);
  }

  /** The purchases recorded against an order. */
  function PurchaseOnOrder(orderId: int): Purchase -> bool
  {
    (p: Purchase) => p.orderId == orderId
  }

  /** The loop of `order_detail` over the order's lines. */
  method LineTotals(items: seq<OrderItem>)
    returns (byProduct: map<int, real>, byCustomer: map<int, real>, groups: map<int, map<string, real>>)
    ensures byProduct == Tally(items, ProductKey, QtyOf)
    ensures byCustomer == Tally(items, CustomerKey, QtyOf)
    ensures groups == UnitTotals(items)
  {
    byProduct, byCustomer, groups := map[], map[], map[];
    var i := 0;
    while i < |items|
      invariant 0 <= i <= |items|
      invariant byProduct == Tally(items[..i], ProductKey, QtyOf)
      invariant byCustomer == Tally(items[..i], CustomerKey, QtyOf)
      invariant groups == UnitTotals(items[..i])
    {
      TallyPrefix(items, i, ProductKey, QtyOf);
      TallyPrefix(items, i, CustomerKey, QtyOf);
      UnitTotalsPrefix(items, i);
      var it := items[i];
      byProduct := TallyAdd(byProduct, it.productId, it.qty);
      byCustomer := TallyAdd(byCustomer, it.customerId, it.qty);
      groups := GroupAdd(groups, it);
      i := i + 1;
    }
    assert items[..|items|] == items;
  }

  /** The loop of `order_detail` over the order's purchases. */
  method PurchaseTotals(purchases: seq<Purchase>) returns (purchased: map<int, Bought>)
    ensures purchased == PurchasedByProduct(purchases)
  {
    purchased := map[];
    var j := 0;
    while j < |purchases|
      invariant 0 <= j <= |purchases|
      invariant purchased == PurchasedByProduct(purchases[..j])
    {
      assert purchases[..j + 1][..j] == purchases[..j];
      var p := purchases[j];
      var d := if p.productId in purchased then purchased[p.productId] else Bought(0.0, 0.0, 0.0);
      purchased := purchased[p.productId := Bought(d.kg + OrZero(p.qtyKg), d.unit + OrZero(p.qtyUnit), d.g)];
      j := j + 1;
    }
    assert purchases[..|purchases|] == purchases;
  }

  /** `GET /orders/<order_id>`: 404 for an unknown order, else the totals of its lines and purchases. */
  method OrderDetail(db: Store, orderId: int) returns (r: Option<Detail>)
    ensures r.None? <==> !(orderId >= 0 && orderId as nat in db.orders.rows)
    ensures r.Some? ==>
              var items := Where(db.items, OnOrder(orderId));
              var purchases := Where(db.purchases, PurchaseOnOrder(orderId));
              r.value == Detail(Tally(items, ProductKey, QtyOf), Tally(items, CustomerKey, QtyOf),
                                UnitTotals(items), PurchasedByProduct(purchases))
  {
    if !(orderId >= 0 && orderId as nat in db.orders.rows) {
      return None;
    }
    var byProduct, byCustomer, groups := LineTotals(Where(db.items, OnOrder(orderId)));
    var purchased := PurchaseTotals(Where(db.purchases, PurchaseOnOrder(orderId)));
    r := Some(Detail(byProduct, byCustomer, groups, purchased));
  }
}
