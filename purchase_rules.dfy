/**
 * The arithmetic of purchase reconciliation, free of the store: request
 * validation, the completeness guard, the surplus a purchase leaves, the
 * unit/kg ratio a purchase reveals, the charged quantity of a line, and
 * the two allocation passes.
 */
module PurchaseRules {
  import opened Common
  import opened Text
  import opened Records

  /** How the request gave `customers`: missing, as a list, or as comma-separated text. */
  datatype CustomersInput = Absent | AsList(names: seq<string>) | AsText(text: string)

  /**
   * A purchase request after parsing: `productId` is 0 when missing or not
   * an integer, `pricePerUnit` is None when missing or not a number, a
   * missing `chargedUnit` is "" and a missing `orderId` is 0.
   */
  datatype PurchaseRequest = PurchaseRequest(
    orderId: int, productId: int,
    qtyKg: Option<real>, qtyUnit: Option<real>, chargedUnit: string,
    eqQtyKg: Option<real>, eqQtyUnit: Option<real>,
    priceTotal: Option<real>, pricePerUnit: Option<real>,
    customers: CustomersInput)

  /** The 400 answers of the purchase endpoint. */
  datatype Rejection = ProductRequired | CostRequired | ChargedUnitRequired | CustomersRequired

  /** The field checks made before anything is stored, in the order they are made. */
  function Validate(req: PurchaseRequest): (r: Option<Rejection>)
    ensures r.None? <==> req.productId != 0 && req.pricePerUnit.Some? && req.pricePerUnit.value > 0.0
                         && req.chargedUnit != ""
    ensures req.productId == 0 ==> r == Some(ProductRequired)
    ensures r != Some(CustomersRequired)
  {
    if req.productId == 0 then Some(ProductRequired)
    else if req.pricePerUnit.None? || req.pricePerUnit.value <= 0.0 then Some(CostRequired)
    else if req.chargedUnit == "" then Some(ChargedUnitRequired)
    else None
  }

  /** `(it.unit or "kg")`: the unit a line was requested in. */
  function RequestedUnit(it: OrderItem): string
  {
    OrText(it.unit, "kg")
  }

  predicate Blank(s: string)
  {
    Strip(s) == ""
  }

  /** The guard's reading of `customers`: some entry (or the text) is not blank. */
  predicate HasCustomers(c: CustomersInput)
  {
    match c
    case Absent => false
    case AsList(names) => exists i :: 0 <= i < |names| && !Blank(names[i])
    case AsText(text) => !Blank(text)
  }

  /** `[c.strip() for c in names if c.strip()]`. */
  function NonBlankStripped(names: seq<string>): seq<string>
  {
    if names == [] then []
    else if Blank(names[0]) then NonBlankStripped(names[1..])
    else [Strip(names[0])] + NonBlankStripped(names[1..])
  }

  /** No kept name is blank, and nothing is kept exactly when every name is blank. */
  lemma {:induction false} NonBlankStrippedExact(names: seq<string>)
    ensures forall i :: 0 <= i < |NonBlankStripped(names)| ==> !Blank(NonBlankStripped(names)[i])
    ensures NonBlankStripped(names) == [] <==> forall i :: 0 <= i < |names| ==> Blank(names[i])
  {
    if names != [] {
      var rest := NonBlankStripped(names[1..]);
      NonBlankStrippedExact(names[1..]);
      if Blank(names[0]) {
        if rest == [] {
          forall i | 0 <= i < |names| ensures Blank(names[i]) {
            if i > 0 {
              assert names[i] == names[1..][i - 1];
            }
          }
        } else {
          var j :| 0 <= j < |names[1..]| && !Blank(names[1..][j]);
          assert names[j + 1] == names[1..][j];
        }
      } else {
        StripIdempotent(names[0]);
        var r := [Strip(names[0])] + rest;
        forall i | 0 <= i < |r| ensures !Blank(r[i]) {
          if i > 0 {
            assert r[i] == rest[i - 1];
          }
        }
      }
    }
  }

  /** The names the allocation stage walks: list entries, or comma-separated parts, stripped and non-blank. */
  function CustomerList(c: CustomersInput): seq<string>
  {
    match c
    case Absent => []
    case AsList(names) => NonBlankStripped(names)
    case AsText(text) => NonBlankStripped(SplitOn(text, ','))
  }

  /** The `customers` column: the list joined by ",", the text as given, or nothing. */
  function StoredCustomers(c: CustomersInput): string
  {
    match c
    case Absent => ""
    case AsList(names) => Join(",", names)
    case AsText(text) => text
  }

  /** A non-empty customer list always satisfies the guard. */
  lemma {:induction false} CustomerListImpliesCustomers(c: CustomersInput)
    ensures CustomerList(c) != [] ==> HasCustomers(c)
  {
    if c.AsList? {
      NonBlankStrippedExact(c.names);
    }
    if c.AsText? && CustomerList(c) != [] {
      var parts := SplitOn(c.text, ',');
      NonBlankStrippedExact(parts);
      var k :| 0 <= k < |parts| && !Blank(parts[k]);
      BlankIsAllSpace(parts[k]);
      var i :| 0 <= i < |parts[k]| && !IsSpace(parts[k][i]);
      assert parts[k][i] in c.text;
      BlankIsAllSpace(c.text);
    }
  }

  /** The converse fails: the text "," passes the guard but names nobody. */
  lemma {:induction false} SeparatorOnlyNamesNobody()
    ensures HasCustomers(AsText(","))
    ensures CustomerList(AsText(",")) == []
  {
    assert SplitOn(",", ',') == ["", ""] by {
      assert ","[1..] == "";
      assert SplitOn("", ',') == [""];
    }
    assert Blank("") by {
      assert Stripped("");
    }
    assert NonBlankStripped(["", ""]) == [] by {
      assert ["", ""][1..] == [""];
      assert [""][1..] == [];
    }
    assert Strip(",") == "," by {
      assert Stripped(",");
    }
  }

  /** `need == 0 or got >= need`: demand in one unit is met. */
  predicate Covers(need: real, got: real)
  {
    need == 0.0 || got >= need
  }

  /** The guard's verdict: demand is met in both kg and units. */
  predicate Completes(needKg: real, gotKg: real, needUnit: real, gotUnit: real)
  {
    Covers(needKg, gotKg) && Covers(needUnit, gotUnit)
  }

  /** Buying more never turns a complete purchase into an incomplete one. */
  lemma {:induction false} CompletesMonotone(needKg: real, gotKg: real, needUnit: real, gotUnit: real, moreKg: real, moreUnit: real)
    requires Completes(needKg, gotKg, needUnit, gotUnit)
    requires moreKg >= 0.0 && moreUnit >= 0.0
    ensures Completes(needKg, gotKg + moreKg, needUnit, gotUnit + moreUnit)
  {
  }

  /** Whether the request is turned away by the completeness guard. */
  predicate GuardRejects(orderId: int, needKg: real, gotKg: real, needUnit: real, gotUnit: real, c: CustomersInput)
  {
    orderId != 0 && !Completes(needKg, gotKg, needUnit, gotUnit) && !HasCustomers(c)
  }

  /**
   * The part of this purchase beyond what the order still needed:
   * `max(0, buy - max(0, need - prev))`.
   */
  function Surplus(need: real, prev: real, buy: real): (extra: real)
    ensures extra >= 0.0
    ensures prev + buy <= need ==> extra == 0.0
    ensures prev <= need ==> extra == Max0(prev + buy - need)
    ensures need <= prev ==> extra == Max0(buy)
  {
    Max0(buy - Max0(need - prev))
  }

  /** The surplus each buy of a sequence files, each against the buys before it. */
  function SurplusSeries(need: real, buys: seq<real>): real
  {
    if buys == [] then 0.0
    else
      var init := buys[..|buys| - 1];
      SurplusSeries(need, init) + Surplus(need, Sum(init), buys[|buys| - 1])
  }

  /**
   * Surplus lots never double count: over any sequence of buys for one
   * order and product, the lots add up to exactly what was bought beyond
   * the need.
   */
  lemma {:induction false} SurplusTelescopes(need: real, buys: seq<real>)
    requires need >= 0.0
    requires forall i :: 0 <= i < |buys| ==> buys[i] >= 0.0
    ensures SurplusSeries(need, buys) == Max0(Sum(buys) - need)
  {
    if buys != [] {
      var init := buys[..|buys| - 1];
      SurplusTelescopes(need, init);
      SumNonNegative(init);
    }
  }

  /** `x or None`. */
  function NoneIfZero(x: real): (o: Option<real>)
    ensures o.None? <==> x == 0.0
    ensures o.Some? ==> o.value == x
  {
    if x == 0.0 then None else Some(x)
  }

  /**
   * The surplus lot a purchase files, if any. Against an order it holds the
   * excess over the remaining need in each unit; without an order it holds
   * the whole purchase.
   */
  function SurplusLot(req: PurchaseRequest, purchaseId: int, needKg: real, needUnit: real, prevKg: real, prevUnit: real)
    : (lot: Option<InventoryLot>)
    ensures lot.Some? ==> lot.value.status == "unassigned" && lot.value.productId == req.productId
                          && lot.value.sourcePurchaseId == purchaseId && lot.value.orderId == req.orderId
    ensures req.orderId != 0 ==>
              (lot.Some? <==> Surplus(needKg, prevKg, OrZero(req.qtyKg)) > 0.0
                              || Surplus(needUnit, prevUnit, OrZero(req.qtyUnit)) > 0.0)
    ensures req.orderId != 0 && lot.Some? ==>
              (lot.value.qtyKg.None? || lot.value.qtyKg.value > 0.0)
              && (lot.value.qtyUnit.None? || lot.value.qtyUnit.value > 0.0)
              && OrZero(lot.value.qtyKg) == Surplus(needKg, prevKg, OrZero(req.qtyKg))
              && OrZero(lot.value.qtyUnit) == Surplus(needUnit, prevUnit, OrZero(req.qtyUnit))
    ensures req.orderId == 0 ==>
              (lot.Some? <==> OrZero(req.qtyKg) != 0.0 || OrZero(req.qtyUnit) != 0.0)
    ensures req.orderId == 0 && lot.Some? ==> lot.value.qtyKg == req.qtyKg && lot.value.qtyUnit == req.qtyUnit
  {
    if req.orderId != 0 then
      var extraKg := Surplus(needKg, prevKg, OrZero(req.qtyKg));
      var extraUnit := Surplus(needUnit, prevUnit, OrZero(req.qtyUnit));
      if extraKg > 0.0 || extraUnit > 0.0 then
        Some(InventoryLot(req.productId, purchaseId, req.orderId, NoneIfZero(extraKg), NoneIfZero(extraUnit), "unassigned"))
      else None
    else if OrZero(req.qtyKg) != 0.0 || OrZero(req.qtyUnit) != 0.0 then
      Some(InventoryLot(req.productId, purchaseId, 0, req.qtyKg, req.qtyUnit, "unassigned"))
    else None
  }

  /**
   * Units per kg observed in a purchase: charged in kg, `qty_unit / eq_qty_kg`;
   * charged in units, `eq_qty_unit / qty_kg`; each only when both sides are
   * positive, so no division by zero can happen.
   */
  function Ratio(chargedUnit: string, qtyKg: Option<real>, qtyUnit: Option<real>,
                 eqQtyKg: Option<real>, eqQtyUnit: Option<real>): (r: Option<real>)
    ensures r.Some? ==> r.value > 0.0
    ensures r.Some? <==> (chargedUnit == "kg" && OrZero(qtyUnit) > 0.0 && OrZero(eqQtyKg) > 0.0)
                         || (chargedUnit == "unit" && OrZero(qtyKg) > 0.0 && OrZero(eqQtyUnit) > 0.0)
    ensures chargedUnit == "kg" && r.Some? ==> r.value * OrZero(eqQtyKg) == OrZero(qtyUnit)
    ensures chargedUnit == "unit" && r.Some? ==> r.value * OrZero(qtyKg) == OrZero(eqQtyUnit)
  {
    if chargedUnit == "kg" then
      if OrZero(qtyUnit) > 0.0 && OrZero(eqQtyKg) > 0.0 then Some(OrZero(qtyUnit) / OrZero(eqQtyKg)) else None
    else if chargedUnit == "unit" then
      if OrZero(qtyKg) > 0.0 && OrZero(eqQtyUnit) > 0.0 then Some(OrZero(eqQtyUnit) / OrZero(qtyKg)) else None
    else None
  }

  /**
   * A line's quantity in the charged unit: unchanged when the units agree,
   * converted through the ratio between units and kg, and unchanged for
   * any other pair or without a ratio.
   */
  function ChargedQty(requested: string, qty: real, chargedUnit: string, ratio: Option<real>): (q: real)
    requires ratio.Some? ==> ratio.value > 0.0
    ensures requested == chargedUnit ==> q == qty
    ensures requested != chargedUnit && ratio.Some? && requested == "unit" && chargedUnit == "kg" ==>
              q * ratio.value == qty
    ensures requested != chargedUnit && ratio.Some? && requested == "kg" && chargedUnit == "unit" ==>
              q == qty * ratio.value
    ensures ratio.None? || !((requested == "unit" && chargedUnit == "kg") || (requested == "kg" && chargedUnit == "unit")) ==>
              q == qty
    ensures qty >= 0.0 ==> q >= 0.0
  {
    if requested == chargedUnit then qty
    else if ratio.Some? && ratio.value > 0.0 then
      if chargedUnit == "kg" && requested == "unit" then qty / ratio.value
      else if chargedUnit == "unit" && requested == "kg" then qty * ratio.value
      else qty
    else qty
  }

  /** A line after projection onto the purchase's charged unit. */
  function Projected(it: OrderItem, chargedUnit: string, ratio: Option<real>): (r: OrderItem)
    requires ratio.Some? ==> ratio.value > 0.0
    ensures r == it.(chargedUnit := chargedUnit, chargedQty := r.chargedQty)
    ensures r.chargedQty == Some(ChargedQty(RequestedUnit(it), it.qty, chargedUnit, ratio))
  {
    it.(chargedUnit := chargedUnit, chargedQty := Some(ChargedQty(RequestedUnit(it), it.qty, chargedUnit, ratio)))
  }

  /** Projection overwrites, it does not accumulate: projecting twice is projecting once. */
  lemma {:induction false} ProjectionIdempotent(it: OrderItem, chargedUnit: string, ratio: Option<real>)
    requires ratio.Some? ==> ratio.value > 0.0
    ensures Projected(Projected(it, chargedUnit, ratio), chargedUnit, ratio) == Projected(it, chargedUnit, ratio)
  {
  }

  /**
   * A charge after its line was projected: the charged quantity is the
   * line's and the total follows it; nothing else changes.
   */
  function Repriced(c: Charge, chargedQty: Option<real>): (r: Charge)
    ensures r == c.(chargedQty := chargedQty, total := r.total)
    ensures r.total == OrElse(chargedQty, c.qty) * c.unitPrice
  {
    c.(chargedQty := chargedQty, total := OrElse(chargedQty, c.qty) * c.unitPrice)
  }

  /**
   * One pass of the customer-list stage over the pending needs of the
   * lines, in line order: each line takes what it still needs, up to what
   * remains of the purchase.
   */
  function FillInOrder(needs: seq<real>, remain: real): (takes: seq<real>)
    ensures |takes| == |needs|
  {
    if needs == [] then []
    else
      var take := if needs[0] <= 0.0 then 0.0 else MinReal(remain, needs[0]);
      if take > 0.0 then [take] + FillInOrder(needs[1..], remain - take)
      else [0.0] + FillInOrder(needs[1..], remain)
  }

  predicate AllZero(xs: seq<real>)
  {
    forall i :: 0 <= i < |xs| ==> xs[i] == 0.0
  }

  predicate NonNegative(xs: seq<real>)
  {
    forall i :: 0 <= i < |xs| ==> xs[i] >= 0.0
  }

  /**
   * The pass never gives a line more than it needs, gives out exactly the
   * smaller of the purchase and the total need, and serves lines in order:
   * a line left short means every later line got nothing.
   */
  lemma {:induction false} FillInOrderSpec(needs: seq<real>, remain: real)
    requires NonNegative(needs)
    ensures var takes := FillInOrder(needs, remain);
            (forall i :: 0 <= i < |needs| ==> 0.0 <= takes[i] <= needs[i])
            && Sum(takes) == MinReal(Max0(remain), Sum(needs))
            && (forall i, j :: 0 <= i < j < |needs| && takes[i] < needs[i] ==> takes[j] == 0.0)
  {
    FillBounds(needs, remain);
    FillSum(needs, remain);
    FillGreedy(needs, remain);
  }

  lemma {:induction false} FillBounds(needs: seq<real>, remain: real)
    requires NonNegative(needs)
    ensures forall i :: 0 <= i < |needs| ==> 0.0 <= FillInOrder(needs, remain)[i] <= needs[i]
  {
    if needs != [] {
      var take := if needs[0] <= 0.0 then 0.0 else MinReal(remain, needs[0]);
      var rest := if take > 0.0 then remain - take else remain;
      FillBounds(needs[1..], rest);
      var takes := FillInOrder(needs, remain);
      forall i | 0 < i < |needs| ensures 0.0 <= takes[i] <= needs[i] {
        assert takes[i] == FillInOrder(needs[1..], rest)[i - 1];
      }
    }
  }

  /** `Sum([x] + xs) == x + Sum(xs)`. */
  lemma {:induction false} SumCons(x: real, xs: seq<real>)
    ensures Sum([x] + xs) == x + Sum(xs)
  {
    SumAppend([x], xs);
    assert Sum([x]) == Sum([x][..0]) + x;
  }

  lemma {:induction false} FillSum(needs: seq<real>, remain: real)
    requires NonNegative(needs)
    ensures Sum(FillInOrder(needs, remain)) == MinReal(Max0(remain), Sum(needs))
  {
    if needs != [] {
      var take := if needs[0] <= 0.0 then 0.0 else MinReal(remain, needs[0]);
      var rest := if take > 0.0 then remain - take else remain;
      var t := if take > 0.0 then take else 0.0;
      FillSum(needs[1..], rest);
      SumNonNegative(needs[1..]);
      SumCons(t, FillInOrder(needs[1..], rest));
      SumCons(needs[0], needs[1..]);
      assert [needs[0]] + needs[1..] == needs;
    }
  }

  lemma {:induction false} FillGreedy(needs: seq<real>, remain: real)
    requires NonNegative(needs)
    ensures forall i, j :: 0 <= i < j < |needs| && FillInOrder(needs, remain)[i] < needs[i] ==>
                            FillInOrder(needs, remain)[j] == 0.0
  {
    if needs != [] {
      var take := if needs[0] <= 0.0 then 0.0 else MinReal(remain, needs[0]);
      var rest := if take > 0.0 then remain - take else remain;
      var tail := FillInOrder(needs[1..], rest);
      FillGreedy(needs[1..], rest);
      var takes := FillInOrder(needs, remain);
      assert takes == [if take > 0.0 then take else 0.0] + tail;
      if takes[0] < needs[0] {
        assert rest <= 0.0;
        ZeroPass(needs[1..], rest);
      }
      forall i, j | 0 <= i < j < |needs| && takes[i] < needs[i] ensures takes[j] == 0.0 {
        assert takes[j] == tail[j - 1];
        if i > 0 {
          assert takes[i] == tail[i - 1] && needs[i] == needs[1..][i - 1];
        }
      }
    }
  }

  /** What each line still needs after a pass. */
  function Residual(needs: seq<real>, takes: seq<real>): (r: seq<real>)
    requires |takes| == |needs|
    ensures |r| == |needs|
    ensures forall i :: 0 <= i < |r| ==> r[i] == needs[i] - takes[i]
  {
    seq(|needs|, i requires 0 <= i < |needs| => needs[i] - takes[i])
  }

  /**
   * After one pass either the purchase is used up or every line is served,
   * so a second pass (the stage walks the lines once per listed name) gives
   * nothing more.
   */
  lemma {:induction false} SecondPassGivesNothing(needs: seq<real>, remain: real)
    requires NonNegative(needs)
    ensures AllZero(FillInOrder(Residual(needs, FillInOrder(needs, remain)), remain - Sum(FillInOrder(needs, remain))))
  {
    var takes := FillInOrder(needs, remain);
    FillInOrderSpec(needs, remain);
    var left := Residual(needs, takes);
    var rest := remain - Sum(takes);
    if rest > 0.0 {
      forall i | 0 <= i < |needs| ensures left[i] == 0.0 {
        if takes[i] < needs[i] {
          AllServedWhenShortfallNone(needs, takes, i);
        }
      }
    }
    ZeroPass(left, rest);
  }

  /** With purchase left over, no line was left short. */
  lemma {:induction false} AllServedWhenShortfallNone(needs: seq<real>, takes: seq<real>, i: int)
    requires |takes| == |needs| && 0 <= i < |needs|
    requires forall j :: 0 <= j < |needs| ==> takes[j] <= needs[j]
    requires takes[i] < needs[i]
    ensures Sum(takes) < Sum(needs)
  {
    var t' := takes[i := needs[i]];
    SumMonotone(t', needs);
    SumSplit(takes, i);
    SumSplit(t', i);
    assert takes[..i] == t'[..i] && takes[i + 1..] == t'[i + 1..];
  }

  lemma {:induction false} SumSplit(xs: seq<real>, i: int)
    requires 0 <= i < |xs|
    ensures Sum(xs) == Sum(xs[..i]) + xs[i] + Sum(xs[i + 1..])
  {
    assert xs == xs[..i] + [xs[i]] + xs[i + 1..];
    SumAppend(xs[..i] + [xs[i]], xs[i + 1..]);
    SumAppend(xs[..i], [xs[i]]);
    assert Sum([xs[i]]) == xs[i];
  }

  /** A pass with nothing left to give, or no line in need, gives nothing. */
  lemma {:induction false} ZeroPass(needs: seq<real>, remain: real)
    requires remain <= 0.0 || forall i :: 0 <= i < |needs| ==> needs[i] <= 0.0
    ensures forall i :: 0 <= i < |needs| ==> FillInOrder(needs, remain)[i] == 0.0
  {
    if needs != [] {
      ZeroPass(needs[1..], remain);
      assert FillInOrder(needs, remain) == [0.0] + FillInOrder(needs[1..], remain);
    }
  }

  /**
   * The customer-list pass as the endpoint writes it: the pending need is
   * kept per customer, not per line, so the first line of a customer can
   * take the need of all that customer's lines.
   */
  function PendingByCustomer(keys: seq<int>, needs: seq<real>): map<int, real>
    requires |keys| == |needs|
  {
    if keys == [] then map[]
    else
      var m := PendingByCustomer(keys[..|keys| - 1], needs[..|needs| - 1]);
      var k := keys[|keys| - 1];
      if needs[|needs| - 1] > 0.0 then m[k := (if k in m then m[k] else 0.0) + needs[|needs| - 1]] else m
  }

  function FillByCustomer(keys: seq<int>, pending: map<int, real>, remain: real): (takes: seq<real>)
    ensures |takes| == |keys|
  {
    if keys == [] then []
    else
      var p := if keys[0] in pending then pending[keys[0]] else 0.0;
      var take := if p <= 0.0 then 0.0 else MinReal(remain, p);
      if take > 0.0 then [take] + FillByCustomer(keys[1..], pending[keys[0] := p - take], remain - take)
      else [0.0] + FillByCustomer(keys[1..], pending, remain)
  }

  /**
   * Two lines of customer 7, each needing 2, and a purchase of 4: the
   * first line is given 4, twice what it asked for, and the second nothing.
   */
  lemma {:induction false} CustomerKeyedPassOverfillsLine()
    ensures var keys := [7, 7];
            var needs := [2.0, 2.0];
            var takes := FillByCustomer(keys, PendingByCustomer(keys, needs), 4.0);
            takes == [4.0, 0.0] && takes[0] > needs[0]
  {
    var keys := [7, 7];
    var needs := [2.0, 2.0];
    assert keys[..1] == [7] && needs[..1] == [2.0];
    assert PendingByCustomer([7], [2.0]) == map[7 := 2.0] by {
      assert PendingByCustomer([7][..0], [2.0][..0]) == map[];
    }
    assert PendingByCustomer(keys, needs) == map[7 := 4.0];
    assert FillByCustomer([7], map[7 := 0.0], 0.0) == [0.0];
  }

  /** A suffix's sum is its first element plus the rest, and the rest is not negative. */
  lemma {:induction false} TailSplit(xs: seq<real>, i: nat)
    requires NonNegative(xs) && i < |xs|
    ensures Sum(xs[i..]) == xs[i] + Sum(xs[i + 1..]) && Sum(xs[i + 1..]) >= 0.0
  {
    assert xs[i..] == [xs[i]] + xs[i + 1..];
    SumCons(xs[i], xs[i + 1..]);
    SumNonNegative(xs[i + 1..]);
  }

  /** Non-negative amounts that sum to nothing are all nothing. */
  lemma {:induction false} NoTailNeed(xs: seq<real>)
    requires NonNegative(xs) && Sum(xs) <= 0.0
    ensures forall j :: 0 <= j < |xs| ==> xs[j] <= 0.0
  {
    if xs != [] {
      SumNonNegative(xs[..|xs| - 1]);
      NoTailNeed(xs[..|xs| - 1]);
      assert forall j :: 0 <= j < |xs| - 1 ==> xs[j] == xs[..|xs| - 1][j];
    }
  }

  /**
   * The auto-complete stage: when what the purchase still has covers the
   * whole pending need (and there is some), every line takes exactly its
   * need; otherwise nobody takes anything.
   */
  function AutoFill(needs: seq<real>, available: real): (takes: seq<real>)
    ensures |takes| == |needs|
  {
    if Sum(needs) > 0.0 && available >= Sum(needs) then needs
    else seq(|needs|, _ => 0.0)
  }

  lemma {:induction false} SumZeros(n: nat)
    ensures Sum(seq(n, _ => 0.0)) == 0.0
  {
    if n > 0 {
      assert seq(n, _ => 0.0)[..n - 1] == seq(n - 1, _ => 0.0);
      SumZeros(n - 1);
    }
  }

  /** The auto-complete stage gives nothing negative when no line needs a negative amount. */
  lemma AutoFillNonNegative(needs: seq<real>, available: real)
    requires NonNegative(needs)
    ensures NonNegative(AutoFill(needs, available))
  {
  }

  /** The auto-complete stage never gives out more than it has. */
  lemma {:induction false} AutoFillWithinAvailable(needs: seq<real>, available: real)
    ensures Sum(AutoFill(needs, available)) <= Max0(available)
  {
    if !(Sum(needs) > 0.0 && available >= Sum(needs)) {
      SumZeros(|needs|);
    }
  }

  /**
   * The endpoint runs the auto-complete stage against the whole purchase
   * even when the customer-list stage already used it. Two lines needing
   * 4 each and a purchase of 4: the first stage gives the first line 4,
   * then the second stage sees 4 pending against a purchase of 4 and gives
   * the second line 4 more, 8 from a purchase of 4.
   */
  lemma {:induction false} StagesOverAllocate()
    ensures var needs := [4.0, 4.0];
            var first := FillInOrder(needs, 4.0);
            var second := AutoFill(Residual(needs, first), 4.0);
            Sum(first) + Sum(second) == 8.0
  {
    var needs := [4.0, 4.0];
    assert FillInOrder([4.0], 0.0) == [0.0];
    var first := FillInOrder(needs, 4.0);
    assert first == [4.0, 0.0];
    var left := Residual(needs, first);
    assert left == [0.0, 4.0];
    assert [0.0, 4.0][..1] == [0.0];
    assert Sum(left) == 4.0;
    assert [4.0, 0.0][..1] == [4.0];
    assert Sum(first) == 4.0;
  }

  /**
   * With the auto-complete stage measured against what the first stage
   * left of the purchase, both stages together never allocate more than
   * was bought.
   */
  lemma {:induction false} StagesWithinPurchase(needs: seq<real>, bought: real)
    requires NonNegative(needs)
    ensures var first := FillInOrder(needs, bought);
            var second := AutoFill(Residual(needs, first), bought - Sum(first));
            Sum(first) + Sum(second) <= Max0(bought)
  {
    FirstStageWithin(needs, bought);
    SecondStageRest(needs, bought);
    SecondStageWithin(Sum(needs), Sum(FillInOrder(needs, bought)), bought,
      Sum(AutoFill(Residual(needs, FillInOrder(needs, bought)), bought - Sum(FillInOrder(needs, bought)))));
  }

  /** The auto-complete stage allocates at most what the first stage left of the purchase. */
  lemma {:induction false} SecondStageRest(needs: seq<real>, bought: real)
    ensures Sum(AutoFill(Residual(needs, FillInOrder(needs, bought)), bought - Sum(FillInOrder(needs, bought))))
            <= Max0(bought - Sum(FillInOrder(needs, bought)))
  {
    var first := FillInOrder(needs, bought);
    var left := Residual(needs, first);
    AutoFillWithinAvailable(left, bought - Sum(first));
  }

  /** The first stage takes all it can: the whole purchase or the whole need, whichever is less. */
  lemma {:induction false} FirstStageWithin(needs: seq<real>, bought: real)
    requires NonNegative(needs)
    ensures Sum(needs) >= 0.0 && Sum(FillInOrder(needs, bought)) == MinReal(Max0(bought), Sum(needs))
  {
    FillSum(needs, bought);
    SumNonNegative(needs);
  }

  /** If the first stage took at most what was bought, the second keeps within the rest. */
  lemma {:induction false} SecondStageWithin(need: real, first: real, bought: real, second: real)
    requires need >= 0.0 && first == MinReal(Max0(bought), need) && second <= Max0(bought - first)
    ensures first + second <= Max0(bought)
  {
  }
}
