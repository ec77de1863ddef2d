/**
 * The price reports: the reporting period's cutoff day, the comparison of
 * the current sale price with the competitors' average, and the profit of
 * the current sale price over the average cost, for one product or
 * averaged over every product of the catalog.
 */
module Prices {
  import opened Common
  import opened Records
  import opened Tables
  import opened Text
  import opened Pricing

  // ---------------------------------------------------------------------
  // The period

  /** `(request.args.get("period") or "actual").lower()`; a missing argument is "". */
  function PeriodOf(raw: string): (period: string)
    ensures raw == [] ==> period == "actual"
    ensures |raw| > 0 ==> |period| == |raw|
  {
    Lower(if raw == [] then "actual" else raw)
  }

  /**
   * The first day a period covers: a week, thirty days or 365 days back
   * from today for the periods that name one, and no cutoff for `actual`,
   * `historica` or any other name.
   */
  function PeriodCutoff(period: string, today: int): (c: Option<int>)
    ensures c.Some? ==> today - 365 <= c.value <= today - 7
    ensures period == "actual" || period == "historica" ==> c.None?
  {
    if period == "7d" then Some(today - 7)
    else if period == "1m" || period == "1mes" || period == "1month" then Some(today - 30)
    else if period == "1y" || period == "1anio" || period == "1year" then Some(today - 365)
    else None
  }

  /** The Spanish and English spellings of a period name the same cutoff. */
  lemma PeriodSpellings(today: int)
    ensures PeriodCutoff("1m", today) == PeriodCutoff("1mes", today) == PeriodCutoff("1month", today) == Some(today - 30)
    ensures PeriodCutoff("1y", today) == PeriodCutoff("1anio", today) == PeriodCutoff("1year", today) == Some(today - 365)
    ensures PeriodCutoff("7d", today) == Some(today - 7)
  {
  }

  predicate InPeriod(cutoff: Option<int>, day: int)
  {
    cutoff.None? || day >= cutoff.value
  }

  // ---------------------------------------------------------------------
  // Averages

  /** `sum(vals) / len(vals) if vals else None`. */
  function Mean(vals: seq<real>): (m: Option<real>)
    ensures m.None? <==> vals == []
  {
    if vals == [] then None else Some(Sum(vals) / |vals| as real)
  }

  lemma {:induction false} SumBounds(vals: seq<real>, lo: real, hi: real)
    requires forall i :: 0 <= i < |vals| ==> lo <= vals[i] <= hi
    ensures lo * |vals| as real <= Sum(vals) <= hi * |vals| as real
  {
    if vals != [] {
      SumBounds(vals[..|vals| - 1], lo, hi);
    }
  }

  /** The mean of values that all lie between two bounds lies between them too. */
  lemma {:induction false} MeanBounds(vals: seq<real>, lo: real, hi: real)
    requires forall i :: 0 <= i < |vals| ==> lo <= vals[i] <= hi
    ensures Mean(vals).Some? ==> lo <= Mean(vals).value <= hi
  {
    if vals != [] {
      SumBounds(vals, lo, hi);
      var n := |vals| as real;
      var m := Sum(vals) / n;
      assert m * n == Sum(vals);
      if m < lo {
        assert m * n < lo * n;
      }
      if m > hi {
        assert m * n > hi * n;
      }
    }
  }

  /** The values that are present, in order. */
  function Present(xs: seq<Option<real>>): (vals: seq<real>)
    ensures |vals| <= |xs|
    ensures forall v :: v in vals <==> Some(v) in xs
  {
    if xs == [] then []
    else Present(xs[..|xs| - 1]) + (if xs[|xs| - 1].Some? then [xs[|xs| - 1].value] else [])
  }

  // ---------------------------------------------------------------------
  // One product

  function CompetitorRowOf(productId: int, cutoff: Option<int>): CompetitorPrice -> bool
  {
    (c: CompetitorPrice) => c.productId == productId && InPeriod(cutoff, c.date)
  }

  /** The non-null competitor prices of a product within the period, in id order. */
  function CompetitorValues(comp: Table<CompetitorPrice>, productId: int, cutoff: Option<int>): (vals: seq<real>)
    ensures forall v :: v in vals ==> exists k :: k in comp.rows && CompetitorRowOf(productId, cutoff)(comp.rows[k]) && comp.rows[k].price == Some(v)
  {
    var rows := Where(comp, CompetitorRowOf(productId, cutoff));
    var vals := Present(seq(|rows|, i requires 0 <= i < |rows| => rows[i].price));
    assert forall v :: v in vals ==> exists i :: 0 <= i < |rows| && rows[i].price == Some(v);
    vals
  }

  /** `comp_avg`: the competitors' average price of a product within the period. */
  function CompetitorAvg(comp: Table<CompetitorPrice>, productId: int, cutoff: Option<int>): Option<real>
  {
    Mean(CompetitorValues(comp, productId, cutoff))
  }

  /** When every competitor price of the product in the period lies between two bounds, so does their average. */
  lemma CompetitorAvgBounds(comp: Table<CompetitorPrice>, productId: int, cutoff: Option<int>, lo: real, hi: real)
    requires forall k :: (k in comp.rows && comp.rows[k].productId == productId && InPeriod(cutoff, comp.rows[k].date)
                          && comp.rows[k].price.Some?) ==> lo <= comp.rows[k].price.value <= hi
    ensures CompetitorAvg(comp, productId, cutoff).Some? ==> lo <= CompetitorAvg(comp, productId, cutoff).value <= hi
  {
    var vals := CompetitorValues(comp, productId, cutoff);
    forall i | 0 <= i < |vals| ensures lo <= vals[i] <= hi {
      assert vals[i] in vals;
    }
    MeanBounds(vals, lo, hi);
  }

  function CostRowOf(productId: int, cutoff: Option<int>): PriceRecord -> bool
  {
    (r: PriceRecord) => r.productId == productId && r.cost.Some? && InPeriod(cutoff, r.date)
  }

  /** The costs of some price records that all carry one. */
  function CostsOf(rows: seq<PriceRecord>): (vals: seq<real>)
    requires forall i :: 0 <= i < |rows| ==> rows[i].cost.Some?
    ensures |vals| == |rows| && forall i :: 0 <= i < |rows| ==> vals[i] == rows[i].cost.value
  {
    seq(|rows|, i requires 0 <= i < |rows| => rows[i].cost.value)
  }

  /**
   * `avg_cost`: the product's price records with a cost in the period, in
   * id order; for `actual` the last one's cost, otherwise their average.
   */
  function AvgCost(history: Table<PriceRecord>, productId: int, period: string, today: int): Option<real>
  {
    var rows := Where(history, CostRowOf(productId, PeriodCutoff(period, today)));
    if period == "actual" && rows != [] then rows[|rows| - 1].cost
    else Mean(CostsOf(rows))
  }

  /**
   * For `actual` the average cost is the cost of the product's most
   * recent costed record (the one with the largest id), and None only
   * when it has none.
   */
  lemma AvgCostActual(history: ValidTable<PriceRecord>, productId: int, today: int)
    ensures AvgCost(history, productId, "actual", today).None?
            <==> forall k :: k in history.rows && history.rows[k].productId == productId ==> history.rows[k].cost.None?
    ensures AvgCost(history, productId, "actual", today).Some? ==>
              exists k :: LastCosted(history, productId, k) && history.rows[k].cost == AvgCost(history, productId, "actual", today)
  {
    var p := CostRowOf(productId, None);
    assert PeriodCutoff("actual", today).None?;
    WhereLast(history, p);
  }

  /** `k` is the largest id among the product's records that carry a cost. */
  predicate LastCosted(history: Table<PriceRecord>, productId: int, k: nat)
  {
    k in history.rows && history.rows[k].productId == productId && history.rows[k].cost.Some?
    && forall k' :: k' in history.rows && history.rows[k'].productId == productId && history.rows[k'].cost.Some? ==> k' <= k
  }

  /** A query's last row is the one with the largest id among the rows it selects; it selects none only when no row qualifies. */
  lemma WhereLast<T>(t: ValidTable<T>, p: T -> bool)
    ensures Where(t, p) == [] <==> forall k :: k in t.rows ==> !p(t.rows[k])
    ensures Where(t, p) != [] ==>
              exists k :: k in t.rows && p(t.rows[k]) && Where(t, p)[|Where(t, p)| - 1] == t.rows[k]
                          && forall k' :: k' in t.rows && p(t.rows[k']) ==> k' <= k
  {
    var ids := Select(t, p);
    SelectExact(t, p);
    SelectIncreasing(t, p);
    SelectFirst(t, p);
    if ids != [] {
      var last := ids[|ids| - 1];
      forall k' | k' in t.rows && p(t.rows[k']) ensures k' <= last {
        var j :| 0 <= j < |ids| && ids[j] == k';
        if j < |ids| - 1 {
          assert ids[j] < ids[|ids| - 1];
        }
      }
    }
  }


  /** For any other period the average cost lies between the smallest and the largest cost it averages. */
  lemma AvgCostBounds(history: Table<PriceRecord>, productId: int, period: string, today: int, lo: real, hi: real)
    requires period != "actual"
    requires forall k :: k in history.rows && CostRowOf(productId, PeriodCutoff(period, today))(history.rows[k])
                         ==> lo <= history.rows[k].cost.value <= hi
    ensures AvgCost(history, productId, period, today).Some? ==> lo <= AvgCost(history, productId, period, today).value <= hi
  {
    var rows := Where(history, CostRowOf(productId, PeriodCutoff(period, today)));
    MeanBounds(CostsOf(rows), lo, hi);
  }

  /** `s - c if s is not None and c is not None else None`. */
  function Profit(sale: Option<real>, cost: Option<real>): (p: Option<real>)
    ensures p.Some? <==> sale.Some? && cost.Some?
    ensures p.Some? ==> p.value + cost.value == sale.value
  {
    if sale.Some? && cost.Some? then Some(sale.value - cost.value) else None
  }

  // ---------------------------------------------------------------------
  // Every product

  /** The `product_id` argument: missing or `all` for every product, otherwise `int(product)`, which may raise. */
  datatype Scope = AllProducts | OneProduct(productId: int) | BadProduct

  function ScopeOf(product: Option<string>): (s: Scope)
    ensures product.None? || product == Some("all") ==> s == AllProducts
  {
    if product.None? || product.value == "all" then AllProducts
    else
      match ParseInt(product.value)
      case None => BadProduct
      case Some(n) => OneProduct(n)
  }

  /** A rendered id names that product. */
  lemma ScopeOfId(n: nat)
    ensures ScopeOf(Some(NatToString(n))) == OneProduct(n)
  {
    ParseIntOfNat(n);
    assert NatToString(n)[0] != 'a';
  }

  function AnyCatalog(c: CatalogPrice): bool
  {
    true
  }

  function ProductOf(c: CatalogPrice): int
  {
    c.productId
  }

  /** `SELECT DISTINCT product_id FROM catalog_prices`, in order of first appearance. */
  function CatalogProducts(catalog: Table<CatalogPrice>): seq<int>
  {
    KeysOf(Where(catalog, AnyCatalog), ProductOf)
  }

  /** The values `f` gives the products, where it gives one, in order. */
  function Collect(pids: seq<int>, f: int -> Option<real>): seq<real>
  {
    if pids == [] then []
    else Collect(pids[..|pids| - 1], f) + (if f(pids[|pids| - 1]).Some? then [f(pids[|pids| - 1]).value] else [])
  }

  /** One more product adds its value, if it has one. */
  lemma CollectSnoc(pids: seq<int>, i: nat, f: int -> Option<real>)
    requires i < |pids|
    ensures Collect(pids[..i + 1], f) == Collect(pids[..i], f) + (if f(pids[i]).Some? then [f(pids[i]).value] else [])
  {
    assert pids[..i + 1][..i] == pids[..i];
  }

  /** Nothing is collected exactly when no product has a value. */
  lemma {:induction false} CollectEmpty(pids: seq<int>, f: int -> Option<real>)
    ensures Collect(pids, f) == [] <==> forall i :: 0 <= i < |pids| ==> f(pids[i]).None?
  {
    if pids != [] {
      var init := pids[..|pids| - 1];
      CollectEmpty(init, f);
      assert forall i :: 0 <= i < |init| ==> init[i] == pids[i];
    }
  }

  /** When every product has a value, one value per product is collected. */
  lemma {:induction false} CollectAll(pids: seq<int>, f: int -> Option<real>)
    requires forall i :: 0 <= i < |pids| ==> f(pids[i]).Some?
    ensures |Collect(pids, f)| == |pids|
  {
    if pids != [] {
      CollectAll(pids[..|pids| - 1], f);
    }
  }

  /** `latest_catalog` / `latest_sale`. */
  function SaleOf(catalog: Table<CatalogPrice>): int -> Option<real>
  {
    pid => LatestSalePrice(catalog, pid)
  }

  function CompetitorOf(comp: Table<CompetitorPrice>, cutoff: Option<int>): int -> Option<real>
  {
    pid => CompetitorAvg(comp, pid, cutoff)
  }

  function ProfitOf(catalog: Table<CatalogPrice>, history: Table<PriceRecord>, period: string, today: int): int -> Option<real>
  {
    pid => Profit(LatestSalePrice(catalog, pid), AvgCost(history, pid, period, today))
  }

  /** Every product listed from the catalog has a current sale price. */
  lemma CatalogProductPriced(catalog: ValidTable<CatalogPrice>, pid: int)
    requires pid in CatalogProducts(catalog)
    ensures LatestSalePrice(catalog, pid).Some?
  {
    var rows := Where(catalog, AnyCatalog);
    KeysOfExact(rows, ProductOf);
    var i :| 0 <= i < |rows| && ProductOf(rows[i]) == pid;
    SelectExact(catalog, AnyCatalog);
    assert Select(catalog, AnyCatalog)[i] in catalog.rows && Select(catalog, AnyCatalog)[i] < catalog.next;
  }

  /** The profit list is empty exactly when no product has both a sale price and an average cost. */
  lemma ProfitsEmpty(catalog: Table<CatalogPrice>, history: Table<PriceRecord>, pids: seq<int>, period: string, today: int)
    ensures Collect(pids, ProfitOf(catalog, history, period, today)) == [] <==>
              forall i :: 0 <= i < |pids| ==> LatestSalePrice(catalog, pids[i]).None? || AvgCost(history, pids[i], period, today).None?
  {
    CollectEmpty(pids, ProfitOf(catalog, history, period, today));
  }

  // ---------------------------------------------------------------------
  // The endpoints

  datatype Comparison = CompareFailed | CompareAll(saleAvg: Option<real>, competitorAvg: Option<real>)
                      | CompareOne(productId: int, sale: Option<real>, competitor: Option<real>)

  /**
   * `GET /prices/sale-vs-competitor`: for every product, the averages of
   * the current sale prices and of the competitor averages; for one, its
   * current sale price and competitor average. A product argument `int`
   * cannot read is an unhandled error.
   */
  function SaleVsCompetitor(catalog: Table<CatalogPrice>, comp: Table<CompetitorPrice>,
                            product: Option<string>, periodArg: string, today: int): (r: Comparison)
    ensures r.CompareFailed? <==> ScopeOf(product).BadProduct?
  {
    var cutoff := PeriodCutoff(PeriodOf(periodArg), today);
    match ScopeOf(product)
    case AllProducts =>
      var pids := CatalogProducts(catalog);
      CompareAll(Mean(Collect(pids, SaleOf(catalog))), Mean(Collect(pids, CompetitorOf(comp, cutoff))))
    case OneProduct(pid) => CompareOne(pid, LatestSalePrice(catalog, pid), CompetitorAvg(comp, pid, cutoff))
    case BadProduct => CompareFailed
  }

  /** Over every product, the average sale price is missing only when the catalog is empty. */
  lemma SaleAvgPresent(catalog: ValidTable<CatalogPrice>, comp: Table<CompetitorPrice>, periodArg: string, today: int)
    ensures SaleVsCompetitor(catalog, comp, None, periodArg, today).saleAvg.None? <==> catalog.rows == map[]
  {
    var pids := CatalogProducts(catalog);
    forall i | 0 <= i < |pids| ensures SaleOf(catalog)(pids[i]).Some? {
      CatalogProductPriced(catalog, pids[i]);
    }
    CollectAll(pids, SaleOf(catalog));
    var rows := Where(catalog, AnyCatalog);
    KeysOfExact(rows, ProductOf);
    SelectFirst(catalog, AnyCatalog);
    if catalog.rows != map[] {
      var k :| k in catalog.rows;
      assert AnyCatalog(catalog.rows[k]);
      assert rows != [];
      assert ProductOf(rows[0]) in pids;
    }
  }

  datatype ProfitReport = ProfitFailed | ProfitAll(average: Option<real>) | ProfitOne(productId: int, profit: Option<real>)

  /**
   * `GET /prices/profit`: for every product, the average profit over the
   * products that have both a sale price and an average cost; for one,
   * its profit. A product argument `int` cannot read is an unhandled error.
   */
  function ProfitSummary(catalog: Table<CatalogPrice>, history: Table<PriceRecord>,
                         product: Option<string>, periodArg: string, today: int): (r: ProfitReport)
    ensures r.ProfitFailed? <==> ScopeOf(product).BadProduct?
  {
    var period := PeriodOf(periodArg);
    match ScopeOf(product)
    case AllProducts => ProfitAll(Mean(Collect(CatalogProducts(catalog), ProfitOf(catalog, history, period, today))))
    case OneProduct(pid) => ProfitOne(pid, Profit(LatestSalePrice(catalog, pid), AvgCost(history, pid, period, today)))
    case BadProduct => ProfitFailed
  }

  // ---------------------------------------------------------------------
  // The handlers' loops

  /** The `sale_vals`/`comp_vals` loop over the catalog's products. */
  method CompareAllProducts(catalog: Table<CatalogPrice>, comp: Table<CompetitorPrice>, cutoff: Option<int>)
    returns (saleVals: seq<real>, compVals: seq<real>)
    ensures saleVals == Collect(CatalogProducts(catalog), SaleOf(catalog))
    ensures compVals == Collect(CatalogProducts(catalog), CompetitorOf(comp, cutoff))
  {
    var pids := CatalogProducts(catalog);
    saleVals, compVals := [], [];
    var i := 0;
    while i < |pids|
      invariant 0 <= i <= |pids|
      invariant saleVals == Collect(pids[..i], SaleOf(catalog))
      invariant compVals == Collect(pids[..i], CompetitorOf(comp, cutoff))
    {
      CollectSnoc(pids, i, SaleOf(catalog));
      CollectSnoc(pids, i, CompetitorOf(comp, cutoff));
      var s := LatestSalePrice(catalog, pids[i]);
      var c := CompetitorAvg(comp, pids[i], cutoff);
      if s.Some? {
        saleVals := saleVals + [s.value];
      }
      if c.Some? {
        compVals := compVals + [c.value];
      }
      i := i + 1;
    }
    assert pids[..i] == pids;
  }

  /** One product's profit: its sale price less its average cost, when it has both. */
  method ProductProfit(catalog: Table<CatalogPrice>, history: Table<PriceRecord>, period: string, today: int, pid: int)
    returns (p: Option<real>)
    ensures p == ProfitOf(catalog, history, period, today)(pid)
    ensures p.Some? <==> LatestSalePrice(catalog, pid).Some? && AvgCost(history, pid, period, today).Some?
    ensures p.Some? ==> p.value + AvgCost(history, pid, period, today).value == LatestSalePrice(catalog, pid).value
  {
    var s := LatestSalePrice(catalog, pid);
    var c := AvgCost(history, pid, period, today);
    p := Profit(s, c);
  }

  /** The `profits` loop over the catalog's products. */
  method ProfitAllProducts(catalog: Table<CatalogPrice>, history: Table<PriceRecord>, period: string, today: int)
    returns (profits: seq<real>)
    ensures profits == Collect(CatalogProducts(catalog), ProfitOf(catalog, history, period, today))
  {
    var pids := CatalogProducts(catalog);
    profits := [];
    var i := 0;
    while i < |pids|
      invariant 0 <= i <= |pids|
      invariant profits == Collect(pids[..i], ProfitOf(catalog, history, period, today))
    {
      CollectSnoc(pids, i, ProfitOf(catalog, history, period, today));
      var p := ProductProfit(catalog, history, period, today, pids[i]);
      if p.Some? {
        profits := profits + [p.value];
      }
      i := i + 1;
    }
    assert pids[..i] == pids;
  }
}
