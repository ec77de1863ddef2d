/**
 * Charge arithmetic shared by the order, charge, purchase, payment and
 * accounting handlers, and the price ladder a new charge is priced by:
 * a fixed line price, else a quantity tier, else the latest catalog price.
 */
module Pricing {
  import opened Common
  import opened Records
  import opened Tables

  /** `(charged_qty if charged_qty is not None else qty) * unit_price`. */
  function ChargeTotal(chargedQty: Option<real>, qty: real, unitPrice: real): real
  {
    OrElse(chargedQty, qty) * unitPrice
  }

  /** The charge's total follows its quantity and price; the discount is kept apart. */
  predicate Priced(c: Charge)
  {
    c.total == ChargeTotal(c.chargedQty, c.qty, c.unitPrice)
  }

  /** `max(0, total - discount)`: what the charge asks to be paid. */
  function Due(c: Charge): (d: real)
    ensures d >= 0.0 && d >= c.total - c.discount
    ensures d == 0.0 || d == c.total - c.discount
  {
    Max0(c.total - c.discount)
  }

  /**
   * A tier a line may use: same product and unit and, when the line names a
   * variant, a tier of that variant or of no variant.
   */
  predicate TierApplies(t: PriceTier, productId: int, unit: string, variant: Option<int>)
  {
    t.productId == productId && t.unit == unit
    && (variant.None? || t.variantId == variant || t.variantId.None?)
  }

  function MinQty(t: PriceTier): real
  {
    t.minQty
  }

  /** The applicable tiers, largest `min_qty` first (ties in id order). */
  function TierCandidates(tiers: Table<PriceTier>, productId: int, unit: string, variant: Option<int>)
    : (r: seq<PriceTier>)
    ensures forall i :: 0 <= i < |r| ==> TierApplies(r[i], productId, unit, variant)
    ensures SortedDesc(r, MinQty)
    ensures forall k :: k in tiers.rows && k < tiers.next && TierApplies(tiers.rows[k], productId, unit, variant) ==> tiers.rows[k] in r
  {
    var applies := (t: PriceTier) => TierApplies(t, productId, unit, variant);
    var ids := Select(tiers, applies);
    SelectExact(tiers, applies);
    var rows := Rows(tiers, ids);
    var r := SortDesc(rows, MinQty);
    CandidatesKept(tiers.rows, tiers.next, productId, unit, variant, ids, rows, r);
    r
  }

  lemma {:induction false} CandidatesKept(tiers: map<nat, PriceTier>, n: nat, productId: int, unit: string, variant: Option<int>,
                       ids: seq<nat>, rows: seq<PriceTier>, r: seq<PriceTier>)
    requires forall i :: 0 <= i < |ids| ==> ids[i] in tiers && TierApplies(tiers[ids[i]], productId, unit, variant)
    requires forall k :: k in tiers && k < n && TierApplies(tiers[k], productId, unit, variant) ==> k in ids
    requires |rows| == |ids| && forall i :: 0 <= i < |ids| ==> rows[i] == tiers[ids[i]]
    requires multiset(r) == multiset(rows)
    ensures forall i :: 0 <= i < |r| ==> TierApplies(r[i], productId, unit, variant)
    ensures forall k :: k in tiers && k < n && TierApplies(tiers[k], productId, unit, variant) ==> tiers[k] in r
  {
    forall i | 0 <= i < |r| ensures TierApplies(r[i], productId, unit, variant) {
      assert r[i] in multiset(rows);
    }
    forall k | k in tiers && k < n && TierApplies(tiers[k], productId, unit, variant)
      ensures tiers[k] in r
    {
      var i :| 0 <= i < |ids| && ids[i] == k;
      assert rows[i] in multiset(r);
    }
  }

  /** The sale price of the first tier whose `min_qty` the quantity reaches. */
  function FirstTierPrice(tiers: seq<PriceTier>, qty: real): (p: Option<real>)
    ensures p.None? <==> forall i :: 0 <= i < |tiers| ==> qty < tiers[i].minQty
    ensures p.Some? ==> exists i :: (0 <= i < |tiers| && qty >= tiers[i].minQty
                                     && p.value == tiers[i].salePrice
                                     && forall j :: 0 <= j < i ==> qty < tiers[j].minQty)
  {
    if tiers == [] then None
    else if qty >= tiers[0].minQty then Some(tiers[0].salePrice)
    else
      var p := FirstTierPrice(tiers[1..], qty);
      if p.Some? then
        var i :| 1 <= i + 1 <= |tiers| && 0 <= i < |tiers[1..]| && qty >= tiers[1..][i].minQty
          && p.value == tiers[1..][i].salePrice && forall j :: 0 <= j < i ==> qty < tiers[1..][j].minQty;
        assert forall j :: 0 <= j < i + 1 ==> qty < tiers[j].minQty by {
          forall j | 0 <= j < i + 1 ensures qty < tiers[j].minQty {
            if j > 0 { assert tiers[j] == tiers[1..][j - 1]; }
          }
        }
        p
      else p
  }

  /**
   * On tiers sorted by `min_qty`, largest first, the first reachable tier
   * is the one with the highest `min_qty` the quantity reaches.
   */
  lemma {:induction false} FirstTierIsHighestReached(tiers: seq<PriceTier>, qty: real)
    requires SortedDesc(tiers, MinQty)
    requires FirstTierPrice(tiers, qty).Some?
    ensures exists i :: (0 <= i < |tiers| && qty >= tiers[i].minQty
                         && FirstTierPrice(tiers, qty).value == tiers[i].salePrice
                         && forall j :: 0 <= j < |tiers| && qty >= tiers[j].minQty ==> tiers[j].minQty <= tiers[i].minQty)
  {
    var i :| 0 <= i < |tiers| && qty >= tiers[i].minQty
      && FirstTierPrice(tiers, qty).value == tiers[i].salePrice
      && forall j :: 0 <= j < i ==> qty < tiers[j].minQty;
    forall j | 0 <= j < |tiers| && qty >= tiers[j].minQty
      ensures tiers[j].minQty <= tiers[i].minQty
    {
      if j < i {
        assert false;
      } else {
        assert MinQty(tiers[i]) >= MinQty(tiers[j]);
      }
    }
  }

  /** The latest-dated row among `ids` (the first of them on a tie). */
  function Latest(catalog: map<nat, CatalogPrice>, ids: seq<nat>): (r: Option<CatalogPrice>)
    requires forall i :: 0 <= i < |ids| ==> ids[i] in catalog
    ensures r.None? <==> ids == []
    ensures r.Some? ==> exists i :: 0 <= i < |ids| && catalog[ids[i]] == r.value
    ensures r.Some? ==> forall i :: 0 <= i < |ids| ==> catalog[ids[i]].date <= r.value.date
  {
    if ids == [] then None
    else
      var rest := Latest(catalog, ids[1..]);
      if rest.None? || catalog[ids[0]].date >= rest.value.date then Some(catalog[ids[0]])
      else
        assert forall i :: 1 <= i < |ids| ==> ids[i] == ids[1..][i - 1];
        rest
  }

  /** `k` is a catalog row of the product dated no earlier than any other. */
  predicate IsLatestRow(catalog: map<nat, CatalogPrice>, n: nat, productId: int, k: nat)
  {
    k in catalog && k < n && catalog[k].productId == productId
    && forall k' :: k' in catalog && k' < n && catalog[k'].productId == productId ==> catalog[k'].date <= catalog[k].date
  }

  /** The product's current sale price: the latest catalog row's, if there is one. */
  function LatestSalePrice(catalog: Table<CatalogPrice>, productId: int): (p: Option<real>)
    ensures p.None? <==> forall k :: k in catalog.rows && k < catalog.next ==> catalog.rows[k].productId != productId
    ensures p.Some? ==> exists k :: IsLatestRow(catalog.rows, catalog.next, productId, k) && catalog.rows[k].salePrice == p.value
  {
    var ids := Select(catalog, (c: CatalogPrice) => c.productId == productId);
    SelectExact(catalog, (c: CatalogPrice) => c.productId == productId);
    var r := Latest(catalog.rows, ids);
    LatestRowFound(catalog.rows, catalog.next, productId, ids, r);
    if r.None? then None else Some(r.value.salePrice)
  }

  lemma {:induction false} LatestRowFound(catalog: map<nat, CatalogPrice>, n: nat, productId: int, ids: seq<nat>, r: Option<CatalogPrice>)
    requires forall i :: 0 <= i < |ids| ==> ids[i] in catalog && ids[i] < n && catalog[ids[i]].productId == productId
    requires forall k :: k in catalog && k < n && catalog[k].productId == productId ==> k in ids
    requires r.None? <==> ids == []
    requires r.Some? ==> exists i :: 0 <= i < |ids| && catalog[ids[i]] == r.value
    requires r.Some? ==> forall i :: 0 <= i < |ids| ==> catalog[ids[i]].date <= r.value.date
    ensures r.None? <==> forall k :: k in catalog && k < n ==> catalog[k].productId != productId
    ensures r.Some? ==> exists k :: IsLatestRow(catalog, n, productId, k) && catalog[k].salePrice == r.value.salePrice
  {
    if r.Some? {
      var i :| 0 <= i < |ids| && catalog[ids[i]] == r.value;
      forall k' | k' in catalog && k' < n && catalog[k'].productId == productId
        ensures catalog[k'].date <= catalog[ids[i]].date
      {
        var j :| 0 <= j < |ids| && ids[j] == k';
      }
      assert IsLatestRow(catalog, n, productId, ids[i]);
    }
  }

  /**
   * The price ladder for a new charge: a fixed line price if positive, else
   * the reached tier's price if positive, else the latest catalog price if
   * the product has one, else 0.
   */
  function LinePrice(fixed: Option<real>, tierPrice: Option<real>, catalogPrice: Option<real>): (p: real)
    ensures fixed.Some? && fixed.value > 0.0 ==> p == fixed.value
    ensures !(fixed.Some? && fixed.value > 0.0) && tierPrice.Some? && tierPrice.value > 0.0 ==> p == tierPrice.value
    ensures !(fixed.Some? && fixed.value > 0.0) && !(tierPrice.Some? && tierPrice.value > 0.0) ==>
      p == OrZero(catalogPrice)
  {
    var first := OrElse(fixed, 0.0);
    var second := if first <= 0.0 && tierPrice.Some? then tierPrice.value else first;
    if second <= 0.0 then OrZero(catalogPrice) else second
  }
}
