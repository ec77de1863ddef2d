/**
 * The merchant (B2B) ordering endpoint: the token check that names the
 * merchant user behind a request, and the placement of an order with its
 * items, their subtotals and the order's totals. A failure anywhere rolls
 * the whole order back.
 */
module Merchant {
  import opened Common
  import opened Records
  import opened Tables
  import opened Db
  import opened Text

  // ---------------------------------------------------------------------
  // The token

  const Prefix: string := "merchant_"

  /** `X-API-Token or X-Merchant-Token`; a missing header is "". */
  function TokenOf(apiToken: string, merchantToken: string): (t: string)
    ensures t == [] <==> apiToken == [] && merchantToken == []
  {
    if apiToken != [] then apiToken else merchantToken
  }

  /**
   * The user a request acts for: the token must start with `merchant_`,
   * what is left once every `merchant_` is removed must read as an integer,
   * and that id must belong to an active merchant user. None is the 401.
   */
  function Authorize(apiToken: string, merchantToken: string, users: Table<MerchantUser>): (r: Option<nat>)
    ensures r.Some? ==> StartsWith(TokenOf(apiToken, merchantToken), Prefix)
    ensures r.Some? ==> r.value in users.rows && users.rows[r.value].isActive
    ensures r.Some? ==> ParseInt(RemoveAll(TokenOf(apiToken, merchantToken), Prefix)) == Some(r.value as int)
  {
    var token := TokenOf(apiToken, merchantToken);
    if token == [] || !StartsWith(token, Prefix) then None
    else
      match ParseInt(RemoveAll(token, Prefix))
      case None => None
      case Some(id) =>
        if id >= 0 && id as nat in users.rows && users.rows[id as nat].isActive then Some(id as nat) else None
  }

  /** The token `merchant_<id>`, in either header, is accepted exactly when that user exists and is active. */
  lemma {:induction false} AuthorizeIssued(u: nat, other: string, users: Table<MerchantUser>)
    ensures Authorize(Prefix + NatToString(u), other, users).Some? <==> u in users.rows && users.rows[u].isActive
    ensures Authorize(Prefix + NatToString(u), other, users).Some? ==> Authorize(Prefix + NatToString(u), other, users) == Some(u)
    ensures Authorize("", Prefix + NatToString(u), users) == Authorize(Prefix + NatToString(u), other, users)
  {
    var digits := NatToString(u);
    var token := Prefix + digits;
    assert StartsWith(token, Prefix) by {
      assert token[..|Prefix|] == Prefix;
    }
    DigitsKept(digits);
    RemoveAllLeading(Prefix, digits);
    ParseIntOfNat(u);
  }

  /** A string of digits has nothing `replace` could remove. */
  lemma DigitsKept(ds: string)
    requires forall i :: 0 <= i < |ds| ==> '0' <= ds[i] <= '9'
    ensures RemoveAll(ds, Prefix) == ds
  {
    assert Prefix[0] !in ds;
    RemoveAllKeeps(ds, [], Prefix);
    assert ds + [] == ds;
  }

  /**
   * `replace` removes every occurrence, not only the leading one: the
   * token `merchant_<a>merchant_<b>` names the same user as
   * `merchant_<ab>`, for any two runs of digits `a` and `b`.
   */
  lemma {:induction false} RepeatedPrefix(a: string, b: string, other: string, users: Table<MerchantUser>)
    requires forall i :: 0 <= i < |a| ==> '0' <= a[i] <= '9'
    requires forall i :: 0 <= i < |b| ==> '0' <= b[i] <= '9'
    ensures Authorize(Prefix + a + Prefix + b, other, users) == Authorize(Prefix + a + b, other, users)
  {
    var t1 := Prefix + a + Prefix + b;
    var t2 := Prefix + a + b;
    assert t1[..|Prefix|] == Prefix && t2[..|Prefix|] == Prefix;
    assert Prefix[0] !in a;
    DigitsKept(b);
    assert t1 == Prefix + (a + (Prefix + b));
    RemoveAllLeading(Prefix, a + (Prefix + b));
    RemoveAllKeeps(a, Prefix + b, Prefix);
    RemoveAllLeading(Prefix, b);
    assert t2 == Prefix + (a + b);
    RemoveAllLeading(Prefix, a + b);
    RemoveAllKeeps(a, b, Prefix);
  }

  // ---------------------------------------------------------------------
  // Placing an order

  /**
   * One item as posted. A missing, null or zero product id is 0; a
   * missing unit is None and reads as `kg`.
   */
  datatype ItemInput = ItemInput(productId: int, variantId: Option<int>, qty: NumField, unit: Option<string>, price: NumField)

  /**
   * The posted order. `deliveryDateOk` is false when a delivery date is
   * given that `strptime` cannot read; `stamp` in the operations is the
   * `%Y%m%d%H%M%S` rendering of the clock.
   */
  datatype OrderInput = OrderInput(items: seq<ItemInput>, deliveryDateOk: bool, deliveryFee: NumField)

  /**
   * The answers: the 400 for an empty order, the 400 for an invalid item,
   * an unhandled error (the 500, after a rollback), or the new order's id.
   */
  datatype Placed = EmptyOrder | InvalidItems | PlaceFailed | Placed(orderId: nat)

  /** How an item reads: `float` raised, the item is invalid, or a valid line. */
  datatype ItemRead = Unreadable | Rejected | Line(productId: int, variantId: Option<int>, qty: real, unit: string, price: real)

  /** Quantity and price read with `float` (default 0), then the validity check. */
  function ReadItem(it: ItemInput): (r: ItemRead)
    ensures r.Line? ==> r.productId != 0 && r.qty > 0.0 && r.price > 0.0
    ensures r.Line? <==> it.productId != 0 && it.qty.Number? && it.qty.value > 0.0 && it.price.Number? && it.price.value > 0.0
  {
    var qty := NumOr(it.qty, 0.0);
    var price := NumOr(it.price, 0.0);
    if qty.None? || price.None? then Unreadable
    else if it.productId == 0 || qty.value <= 0.0 || price.value <= 0.0 then Rejected
    else Line(it.productId, it.variantId, qty.value, if it.unit.Some? then it.unit.value else "kg", price.value)
  }

  predicate AllValid(items: seq<ItemInput>)
  {
    forall i :: 0 <= i < |items| ==> ReadItem(items[i]).Line?
  }

  /** The reading of the first item that is not a valid line, if any. */
  function FirstFailure(items: seq<ItemInput>): (r: Option<ItemRead>)
    ensures r.Some? ==> !r.value.Line?
  {
    if items == [] then None
    else if ReadItem(items[0]).Line? then FirstFailure(items[1..])
    else Some(ReadItem(items[0]))
  }

  /** There is no failure exactly when every item is valid. */
  lemma {:induction false} FirstFailureNone(items: seq<ItemInput>)
    ensures FirstFailure(items).None? <==> AllValid(items)
  {
    if items != [] {
      FirstFailureNone(items[1..]);
      if ReadItem(items[0]).Line? && !AllValid(items) {
        var i :| 0 <= i < |items| && !ReadItem(items[i]).Line?;
        assert items[1..][i - 1] == items[i];
      }
    }
  }

  /** After a run of valid items, the first invalid one decides. */
  lemma {:induction false} FirstFailureAt(items: seq<ItemInput>, i: nat)
    requires i < |items| && AllValid(items[..i]) && !ReadItem(items[i]).Line?
    ensures FirstFailure(items) == Some(ReadItem(items[i]))
  {
    if i > 0 {
      assert ReadItem(items[..i][0]).Line?;
      assert items[1..][..i - 1] == items[..i][1..];
      FirstFailureAt(items[1..], i - 1);
    }
  }

  /** The stored item for a valid line of order `orderId`; its subtotal is `qty * price`. */
  function ItemRow(r: ItemRead, orderId: nat): MerchantOrderItem
    requires r.Line?
  {
    MerchantOrderItem(orderId, r.productId, r.variantId, r.qty, r.unit, r.price, r.qty * r.price)
  }

  /** The stored items of an order whose items are all valid, in order. */
  function Rows(items: seq<ItemInput>, orderId: nat): (rows: seq<MerchantOrderItem>)
    requires AllValid(items)
    ensures |rows| == |items|
    ensures forall i :: 0 <= i < |items| ==> rows[i] == ItemRow(ReadItem(items[i]), orderId)
  {
    if items == [] then []
    else Rows(items[..|items| - 1], orderId) + [ItemRow(ReadItem(items[|items| - 1]), orderId)]
  }

  function Subtotal(m: MerchantOrderItem): real
  {
    m.subtotal
  }

  /** `"M{user_id}-{timestamp}"`. */
  function OrderNumber(user: nat, stamp: string): string
  {
    "M" + NatToString(user) + "-" + stamp
  }

  /** The unique order number is already in use. */
  predicate Taken(orders: Table<MerchantOrder>, number: string)
  {
    exists k :: k in orders.rows && orders.rows[k].orderNumber == number
  }

  /** The two tables the endpoint writes. */
  datatype Ledger = Ledger(orders: ValidTable<MerchantOrder>, items: ValidTable<MerchantOrderItem>)

  /**
   * `POST /merchant/orders` for user `user` at clock `stamp`: an empty
   * order is refused; an unreadable delivery date, a taken order number,
   * an unreadable number in an item or in the delivery fee are unhandled
   * errors; the first invalid item refuses the order. Otherwise the order
   * is stored as pending with its items, whose subtotals add up to the
   * order's subtotal, and the delivery fee on top.
   */
  function Place(l: Ledger, user: nat, req: OrderInput, stamp: string): (out: (Placed, Ledger))
    ensures out.0 == EmptyOrder <==> req.items == []
    ensures !out.0.Placed? ==> out.1 == l
  {
    var number := OrderNumber(user, stamp);
    if req.items == [] then (EmptyOrder, l)
    else if !req.deliveryDateOk || Taken(l.orders, number) then (PlaceFailed, l)
    else
      match FirstFailure(req.items)
      case Some(bad) => (if bad.Unreadable? then PlaceFailed else InvalidItems, l)
      case None =>
        FirstFailureNone(req.items);
        var fee := NumOr(req.deliveryFee, 0.0);
        if fee.None? then (PlaceFailed, l)
        else
          var id := l.orders.next;
          var rows := Rows(req.items, id);
          var subtotal := SumOf(rows, Subtotal);
          var order := MerchantOrder(user, number, "pending", subtotal, fee.value, subtotal + fee.value);
          (Placed(id), Ledger(Insert(l.orders, order), InsertAll(l.items, rows)))
  }

  /** Everything an order needs to be placed. */
  predicate Accepted(l: Ledger, user: nat, req: OrderInput, stamp: string)
  {
    req.items != [] && req.deliveryDateOk && !Taken(l.orders, OrderNumber(user, stamp))
    && AllValid(req.items) && NumOr(req.deliveryFee, 0.0).Some?
  }

  /** What an accepted order stores. */
  lemma PlaceAccepted(l: Ledger, user: nat, req: OrderInput, stamp: string, order: MerchantOrder, items: Table<MerchantOrderItem>)
    requires Accepted(l, user, req, stamp)
    requires items == InsertAll(l.items, Rows(req.items, l.orders.next))
    requires order.subtotal == SumOf(Rows(req.items, l.orders.next), Subtotal)
    requires order.deliveryFee == NumOr(req.deliveryFee, 0.0).value
    requires order == MerchantOrder(user, OrderNumber(user, stamp), "pending", order.subtotal, order.deliveryFee, order.subtotal + order.deliveryFee)
    ensures Place(l, user, req, stamp) == (Placed(l.orders.next), Ledger(Insert(l.orders, order), items))
  {
    FirstFailureNone(req.items);
  }

  lemma {:induction false} SumOfPositive(rows: seq<MerchantOrderItem>)
    requires forall i :: 0 <= i < |rows| ==> rows[i].subtotal > 0.0
    ensures rows != [] ==> SumOf(rows, Subtotal) > 0.0
    ensures SumOf(rows, Subtotal) >= 0.0
  {
    if rows != [] {
      SumOfPositive(rows[..|rows| - 1]);
    }
  }

  /**
   * An order is placed exactly when it has items, its date and number are
   * fine, every item is valid and the fee reads. The new order is pending,
   * under the next id and the number `M<user>-<stamp>`; its total is its
   * subtotal plus the fee, and its subtotal is positive and the sum of its
   * items' subtotals, each `qty * price` of a valid item of this order.
   */
  lemma PlacedIff(l: Ledger, user: nat, req: OrderInput, stamp: string)
    ensures Place(l, user, req, stamp).0.Placed? <==> Accepted(l, user, req, stamp)
  {
    FirstFailureNone(req.items);
  }

  /** A stored item of order `id` that passed the checks, with its subtotal. */
  function ValidItemOf(id: nat): MerchantOrderItem -> bool
  {
    (m: MerchantOrderItem) =>
      m.merchantOrderId == id && m.qty > 0.0 && m.pricePerUnit > 0.0 && m.productId != 0
      && m.subtotal == m.qty * m.pricePerUnit
  }

  /** Every stored item of an accepted order passed the checks and has a positive subtotal. */
  lemma RowsValid(items: seq<ItemInput>, id: nat)
    requires AllValid(items)
    ensures forall i :: 0 <= i < |items| ==> Rows(items, id)[i].subtotal > 0.0 && ValidItemOf(id)(Rows(items, id)[i])
  {
    var rows := Rows(items, id);
    forall i | 0 <= i < |items| ensures rows[i].subtotal > 0.0 && ValidItemOf(id)(rows[i]) {
      RowValid(items[i], id);
    }
  }

  /** The row stored for one valid item passed the checks and has a positive subtotal. */
  lemma RowValid(it: ItemInput, id: nat)
    requires ReadItem(it).Line?
    ensures var m := ItemRow(ReadItem(it), id); m.subtotal > 0.0 && ValidItemOf(id)(m)
  {
    var r := ReadItem(it);
    PositiveProduct(r.qty, r.price);
  }

  lemma PositiveProduct(x: real, y: real)
    requires x > 0.0 && y > 0.0
    ensures x * y > 0.0
  {
  }

  /**
   * What an accepted order stores: the order under the next id, pending,
   * numbered `M<user>-<stamp>`, with the fee read from the request, its
   * total the subtotal plus the fee, and a positive subtotal that adds up
   * the subtotals of its items; and one valid item row per posted item.
   */
  lemma {:induction false} PlacedOrder(l: Ledger, user: nat, req: OrderInput, stamp: string)
    requires Accepted(l, user, req, stamp)
    ensures var id := l.orders.next;
            var out := Place(l, user, req, stamp);
            out.0 == Placed(id) && id in out.1.orders.rows
            && out.1.orders == Insert(l.orders, out.1.orders.rows[id])
            && out.1.items == InsertAll(l.items, Rows(req.items, id))
            && Extends(l.items, out.1.items, |req.items|, ValidItemOf(id))
    ensures var id := l.orders.next;
            var o := Place(l, user, req, stamp).1.orders.rows[id];
            o.merchantUserId == user && o.orderNumber == OrderNumber(user, stamp) && o.status == "pending"
            && o.deliveryFee == NumOr(req.deliveryFee, 0.0).value
            && o.total == o.subtotal + o.deliveryFee
            && o.subtotal == SumOf(Rows(req.items, id), Subtotal) && o.subtotal > 0.0
  {
    var id := l.orders.next;
    var rows := Rows(req.items, id);
    var subtotal := SumOf(rows, Subtotal);
    var fee := NumOr(req.deliveryFee, 0.0).value;
    var order := MerchantOrder(user, OrderNumber(user, stamp), "pending", subtotal, fee, subtotal + fee);
    var items := InsertAll(l.items, rows);
    PlaceAccepted(l, user, req, stamp, order, items);
    RowsValid(req.items, id);
    SumOfPositive(rows);
    InsertAllRows(l.items, rows);
    assert Extends(l.items, items, |req.items|, ValidItemOf(id));
  }



  /** An order with an invalid item after readable ones is refused with the 400, and nothing is stored. */
  lemma InvalidItemRefused(l: Ledger, user: nat, req: OrderInput, stamp: string, i: nat)
    requires i < |req.items| && AllValid(req.items[..i]) && ReadItem(req.items[i]).Rejected?
    requires req.deliveryDateOk && !Taken(l.orders, OrderNumber(user, stamp))
    ensures Place(l, user, req, stamp) == (InvalidItems, l)
  {
    FirstFailureAt(req.items, i);
  }

  /** One more valid item adds its row to the stored items. */
  lemma RowsSnoc(items: seq<ItemInput>, i: nat, orderId: nat)
    requires i < |items| && AllValid(items[..i]) && ReadItem(items[i]).Line?
    ensures AllValid(items[..i + 1])
    ensures Rows(items[..i + 1], orderId) == Rows(items[..i], orderId) + [ItemRow(ReadItem(items[i]), orderId)]
  {
    assert items[..i + 1] == items[..i] + [items[i]];
    assert items[..i + 1][..i] == items[..i];
  }

  /** An order whose items are all valid but whose fee does not read stores nothing. */
  lemma PlaceFeeUnreadable(l: Ledger, user: nat, req: OrderInput, stamp: string)
    requires req.items != [] && req.deliveryDateOk && !Taken(l.orders, OrderNumber(user, stamp))
    requires AllValid(req.items) && NumOr(req.deliveryFee, 0.0).None?
    ensures Place(l, user, req, stamp) == (PlaceFailed, l)
  {
    FirstFailureNone(req.items);
  }

  /**
   * The handler's item loop: each item is read and checked in turn, its
   * row is added to the session and its subtotal to the running sum; the
   * first item that is not valid stops the loop with its reading.
   */
  method AddItems(items0: ValidTable<MerchantOrderItem>, inputs: seq<ItemInput>, orderId: nat)
    returns (failure: Option<ItemRead>, items: ValidTable<MerchantOrderItem>, subtotal: real)
    ensures failure == FirstFailure(inputs)
    ensures failure.None? ==> AllValid(inputs)
    ensures failure.None? ==> items == InsertAll(items0, Rows(inputs, orderId))
    ensures failure.None? ==> subtotal == SumOf(Rows(inputs, orderId), Subtotal)
  {
    items, subtotal := items0, 0.0;
    var i := 0;
    while i < |inputs|
      invariant 0 <= i <= |inputs|
      invariant AllValid(inputs[..i])
      invariant items == InsertAll(items0, Rows(inputs[..i], orderId))
      invariant subtotal == SumOf(Rows(inputs[..i], orderId), Subtotal)
    {
      var it := ReadItem(inputs[i]);
      if !it.Line? {
        FirstFailureAt(inputs, i);
        return Some(it), items, subtotal;
      }
      var row := ItemRow(it, orderId);
      RowsSnoc(inputs, i, orderId);
      InsertAllSnoc(items0, Rows(inputs[..i], orderId), row);
      items := Insert(items, row);
      subtotal := subtotal + row.subtotal;
      i := i + 1;
    }
    assert inputs[..i] == inputs;
    FirstFailureNone(inputs);
    failure := None;
  }

  /**
   * The endpoint as the handler runs it: the order row is added first (the
   * flush that gives it its id), the items are added one by one while the
   * subtotal accumulates, and the totals are written into the order last.
   * The session's pending rows reach the tables at the commit; any failure
   * leaves the tables as they were.
   */
  method PlaceMerchantOrder(db: Store, user: nat, req: OrderInput, stamp: string) returns (r: Placed)
    modifies db`merchantOrders, db`merchantItems
    ensures (r, Ledger(db.merchantOrders, db.merchantItems))
            == Place(Ledger(old(db.merchantOrders), old(db.merchantItems)), user, req, stamp)
  {
    var l := Ledger(db.merchantOrders, db.merchantItems);
    if req.items == [] {
      return EmptyOrder;
    }
    var number := OrderNumber(user, stamp);
    if !req.deliveryDateOk || Taken(l.orders, number) {
      return PlaceFailed;
    }
    var id := l.orders.next;
    var orders := Insert(l.orders, MerchantOrder(user, number, "pending", 0.0, 0.0, 0.0));
    var failure, items, subtotal := AddItems(l.items, req.items, id);
    if failure.Some? {
      return if failure.value.Unreadable? then PlaceFailed else InvalidItems;
    }
    var fee := NumOr(req.deliveryFee, 0.0);
    if fee.None? {
      PlaceFeeUnreadable(l, user, req, stamp);
      return PlaceFailed;
    }
    var order := orders.rows[id].(subtotal := subtotal, deliveryFee := fee.value, total := subtotal + fee.value);
    orders := Update(orders, id, order);
    assert orders.rows == l.orders.rows[id := order];
    PlaceAccepted(l, user, req, stamp, order, items);
    db.merchantOrders, db.merchantItems := orders, items;
    r := Placed(id);
  }
}
