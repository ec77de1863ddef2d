/**
 * The product endpoints: ranking the products against a typed query,
 * creating a product with its first catalog price and its `kivi` variant
 * tier, and editing a product's default unit and today's catalog price.
 */
module Products {
  import opened Common
  import opened Records
  import opened Tables
  import opened Db
  import opened Text
  import Orders

  // ---------------------------------------------------------------------
  // Suggestions

  /** The query as `suggest_products` compares it: stripped, then lower-cased. */
  function Query(raw: string): string
  {
    Lower(Strip(raw))
  }

  /** `set(s.split())`: the distinct words of `s`. */
  function WordSet(s: string): set<string>
  {
    set w | w in Words(s)
  }

  /**
   * `int(60 * inter / union)` with `union or 1`. Both counts are small
   * naturals, so the float quotient truncates to the integer quotient.
   */
  function Overlap(a: set<string>, b: set<string>): (r: int)
    ensures 0 <= r <= 60
    ensures r == 60 <==> a == b && a != {}
  {
    var union := if |a + b| == 0 then 1 else |a + b|;
    OverlapCounts(a, b);
    Sixtieths(|a * b|, union);
    60 * |a * b| / union
  }

  /** The common words are at most all the words, and all of them exactly when the sets agree. */
  lemma OverlapCounts(a: set<string>, b: set<string>)
    ensures |a * b| <= |a + b|
    ensures |a * b| == |a + b| && |a + b| != 0 <==> a == b && a != {}
  {
    assert |a + b| + |a * b| == |a| + |b|;
    assert |a - b| + |a * b| == |a| && |b - a| + |a * b| == |b|;
    if |a * b| == |a + b| {
      assert |a - b| == 0 && |b - a| == 0;
      assert a == b by {
        forall x | x in a ensures x in b { assert x !in a - b; }
        forall x | x in b ensures x in a { assert x !in b - a; }
      }
    }
    if a == b {
      assert a * b == a && a + b == a;
    }
  }

  /** `60 * n / d` for `n <= d` lies between 0 and 60 and is 60 only for `n == d`. */
  lemma Sixtieths(n: nat, d: nat)
    requires 0 < d && n <= d
    ensures 0 <= 60 * n / d <= 60
    ensures 60 * n / d == 60 <==> n == d
  {
    var q := 60 * n / d;
    MulLess(q, 61, d);
    MulLess(-1, q, d);
    MulLess(59, q, d);
    MulLess(60, q, d);
  }

  lemma MulLess(x: int, y: int, d: nat)
    requires d > 0
    ensures x < y <==> x * d < y * d
  {
    assert y * d - x * d == (y - x) * d;
  }

  /** `score(name)` for the normalised query `q`: exact name, part of the name, else word overlap. */
  function Score(q: string, name: string): (r: int)
    ensures 0 <= r <= 100
  {
    var n := Lower(name);
    if q == n then 100
    else if Substring(n, q) then 80
    else Overlap(WordSet(q), WordSet(n))
  }

  /**
   * A name scores at least 60 exactly when it is the query, contains the
   * query, or has the same non-empty set of words; it scores 100 only
   * when it is the query.
   */
  lemma ScoreThreshold(q: string, name: string)
    ensures Score(q, name) == 100 <==> q == Lower(name)
    ensures Score(q, name) >= 60 <==>
              Substring(Lower(name), q) || (WordSet(q) == WordSet(Lower(name)) && WordSet(q) != {})
  {
    var n := Lower(name);
    if q == n {
      assert OccursAt(n, q, 0);
    }
  }

  /** One ranked product: its id, its name and its score. */
  datatype Suggestion = Suggestion(id: nat, name: string, score: int)

  function ScoreKey(s: Suggestion): real
  {
    s.score as real
  }

  function AnyProduct(p: Product): bool
  {
    true
  }

  /** `x` is a stored product with its own name and its score against `q`. */
  predicate Genuine(products: ValidTable<Product>, q: string, x: Suggestion)
  {
    x.id in products.rows && x.name == products.rows[x.id].name && x.score == Score(q, x.name)
  }

  /** `(score(p.name), p) for p in Product.query.all()`: every product, in id order. */
  function Scored(products: ValidTable<Product>, q: string): (r: seq<Suggestion>)
    ensures forall i :: 0 <= i < |r| ==> Genuine(products, q, r[i])
    ensures forall k :: k in products.rows ==> exists i :: 0 <= i < |r| && r[i].id == k
  {
    var es := Entries(products, AnyProduct);
    var r := seq(|es|, i requires 0 <= i < |es| => Suggestion(es[i].0, es[i].1.name, Score(q, es[i].1.name)));
    EveryProductScored(products, es, r);
    r
  }

  lemma EveryProductScored(products: ValidTable<Product>, es: seq<(nat, Product)>, r: seq<Suggestion>)
    requires es == Entries(products, AnyProduct)
    requires |r| == |es| && forall i :: 0 <= i < |r| ==> r[i].id == es[i].0
    ensures forall k :: k in products.rows ==> exists i :: 0 <= i < |r| && r[i].id == k
  {
    SelectExact(products, AnyProduct);
    forall k | k in products.rows ensures exists i :: 0 <= i < |r| && r[i].id == k {
      var ids := Select(products, AnyProduct);
      assert k in ids;
      var i :| 0 <= i < |ids| && ids[i] == k;
      assert r[i].id == k;
    }
  }

  /** `[... for s, p in ranked if s >= 60]`: the suggestions scoring at least 60, in ranked order. */
  function Qualifying(s: seq<Suggestion>): (r: seq<Suggestion>)
    ensures forall x :: x in r <==> x in s && x.score >= 60
  {
    if s == [] then []
    else (if s[0].score >= 60 then [s[0]] else []) + Qualifying(s[1..])
  }

  lemma {:induction false} QualifyingSorted(s: seq<Suggestion>)
    requires SortedDesc(s, ScoreKey)
    ensures SortedDesc(Qualifying(s), ScoreKey)
  {
    if s != [] {
      QualifyingSorted(s[1..]);
      var rest := Qualifying(s[1..]);
      if s[0].score >= 60 {
        forall j | 0 <= j < |rest| ensures ScoreKey(s[0]) >= ScoreKey(rest[j]) {
          assert rest[j] in s[1..];
          var m :| 0 <= m < |s[1..]| && s[1..][m] == rest[j];
          assert s[m + 1] == rest[j];
        }
        assert Qualifying(s) == [s[0]] + rest;
      }
    }
  }

  /** The products scoring at least 60, highest score first, ties in id order. */
  function Ranking(products: ValidTable<Product>, q: string): (r: seq<Suggestion>)
    ensures SortedDesc(r, ScoreKey)
    ensures forall x :: x in r ==> Genuine(products, q, x) && x.score >= 60
    ensures forall x :: x in Scored(products, q) && x.score >= 60 ==> x in r
  {
    var ranked := SortDesc(Scored(products, q), ScoreKey);
    QualifyingSorted(ranked);
    RankedFromScored(products, q);
    Qualifying(ranked)
  }

  /** Ranking keeps exactly the scored products. */
  lemma RankedFromScored(products: ValidTable<Product>, q: string)
    ensures forall x :: x in SortDesc(Scored(products, q), ScoreKey) <==> x in Scored(products, q)
  {
    var s := Scored(products, q);
    var r := SortDesc(s, ScoreKey);
    forall x ensures x in r <==> x in s {
      assert x in r <==> x in multiset(r);
      assert x in s <==> x in multiset(s);
    }
  }

  /** `[:n]`: the first `n` elements, or all of them when there are fewer. */
  function Take<T>(s: seq<T>, n: nat): (r: seq<T>)
    ensures |r| == if |s| <= n then |s| else n
    ensures forall i :: 0 <= i < |r| ==> r[i] == s[i]
  {
    if |s| <= n then s else s[..n]
  }

  /** A prefix of a sorted sequence is sorted, and its elements are elements of the sequence. */
  lemma TakeKeeps<T>(s: seq<T>, n: nat, key: T -> real, p: T -> bool)
    requires SortedDesc(s, key) && forall x :: x in s ==> p(x)
    ensures SortedDesc(Take(s, n), key) && forall i :: 0 <= i < |Take(s, n)| ==> p(Take(s, n)[i])
  {
    assert forall i :: 0 <= i < |Take(s, n)| ==> Take(s, n)[i] in s;
  }

  /** In a sorted sequence, an element left out by `Take` is outranked by each of the `n` taken. */
  lemma TakeOutranks<T>(s: seq<T>, n: nat, key: T -> real, j: nat)
    requires SortedDesc(s, key) && j < |s|
    requires s[j] !in Take(s, n)
    ensures |Take(s, n)| == n
    ensures forall i :: 0 <= i < n ==> key(Take(s, n)[i]) >= key(s[j])
  {
  }

  /**
   * `suggest_products`: nothing for an empty query; otherwise the
   * products ranked by score, highest first, those scoring at least 60,
   * the first five of them.
   */
  function Suggest(products: ValidTable<Product>, raw: string): (r: seq<Suggestion>)
    ensures Query(raw) == "" ==> r == []
    ensures |r| <= 5
    ensures SortedDesc(r, ScoreKey)
    ensures forall i :: 0 <= i < |r| ==> r[i].score >= 60 && Genuine(products, Query(raw), r[i])
  {
    var q := Query(raw);
    if q == "" then []
    else
      var kept := Ranking(products, q);
      TakeKeeps(kept, 5, ScoreKey, (x: Suggestion) => x.score >= 60 && Genuine(products, q, x));
      Take(kept, 5)
  }

  lemma SuggestTakes(products: ValidTable<Product>, raw: string)
    requires Query(raw) != ""
    ensures Suggest(products, raw) == Take(Ranking(products, Query(raw)), 5)
  {
  }

  /**
   * A product scoring at least 60 that is not suggested is outranked:
   * five products are suggested, each scoring at least as much.
   */
  lemma SuggestComplete(products: ValidTable<Product>, raw: string, k: nat)
    requires k in products.rows && Query(raw) != ""
    requires Score(Query(raw), products.rows[k].name) >= 60
    requires forall i :: 0 <= i < |Suggest(products, raw)| ==> Suggest(products, raw)[i].id != k
    ensures |Suggest(products, raw)| == 5
    ensures forall i :: 0 <= i < 5 ==> Suggest(products, raw)[i].score >= Score(Query(raw), products.rows[k].name)
  {
    var q := Query(raw);
    var kept := Ranking(products, q);
    var j := RankedAt(products, q, k);
    var x := kept[j];
    var sug := Suggest(products, raw);
    SuggestTakes(products, raw);
    assert x !in sug;
    TakeOutranks(kept, 5, ScoreKey, j);
    forall i | 0 <= i < 5 ensures sug[i].score >= x.score {
      assert ScoreKey(sug[i]) >= ScoreKey(x);
    }
  }

  /** A product scoring at least 60 has a place in the ranking. */
  lemma RankedAt(products: ValidTable<Product>, q: string, k: nat) returns (j: nat)
    requires k in products.rows && Score(q, products.rows[k].name) >= 60
    ensures j < |Ranking(products, q)| && Ranking(products, q)[j].id == k
    ensures Ranking(products, q)[j].score == Score(q, products.rows[k].name)
  {
    var kept := Ranking(products, q);
    var x := ScoredAt(products, q, k);
    assert x in kept;
    j :| 0 <= j < |kept| && kept[j] == x;
  }

  /** Every stored product is scored. */
  lemma ScoredAt(products: ValidTable<Product>, q: string, k: nat) returns (x: Suggestion)
    requires k in products.rows
    ensures x in Scored(products, q) && x.id == k && Genuine(products, q, x)
  {
    var s := Scored(products, q);
    var i0 :| 0 <= i0 < |s| && s[i0].id == k;
    x := s[i0];
  }

  // ---------------------------------------------------------------------
  // Creating a product

  /**
   * A price the handlers accept: a number above 0. A missing, null or
   * unparsable price is refused on creation and ignored on update.
   */
  predicate Positive(p: NumField)
  {
    p.Number? && p.value > 0.0
  }

  /** What `create_product` reads. An absent name or unit is "". */
  datatype NewProduct = NewProduct(name: string, salePrice: NumField, defaultUnit: string)

  /**
   * The answer of `create_product`: one of the two validation errors, a
   * request that ends in an unhandled exception (and a rolled-back
   * session), or the new product's id.
   */
  datatype Created = NameRequired | PriceRequired | Failed | Created(productId: nat)

  /** The unit of the new product: the one given, else `kg`, stripped. */
  function NewUnit(req: NewProduct): string
  {
    Strip(OrText(req.defaultUnit, "kg"))
  }

  /** Validation, in the order `create_product` runs it. */
  function Invalid(req: NewProduct): Option<Created>
  {
    if Strip(req.name) == "" then Some(NameRequired)
    else if !Positive(req.salePrice) then Some(PriceRequired)
    else None
  }

  /**
   * `create_product` as written: after validation it builds `Product`
   * with `category` and `purchase_type`, which the product model does not
   * define, so the constructor raises and nothing is stored.
   */
  function CreateAsWritten(b: Orders.Books, req: NewProduct, today: Orders.Day): (r: (Orders.Books, Created))
  {
    if Invalid(req).Some? then (b, Invalid(req).value) else (b, Failed)
  }

  /** As written, no request creates a product and none changes the tables. */
  lemma CreateAsWrittenNeverCreates(b: Orders.Books, req: NewProduct, today: Orders.Day)
    ensures CreateAsWritten(b, req, today).0 == b && !CreateAsWritten(b, req, today).1.Created?
    ensures Invalid(req).None? ==> CreateAsWritten(b, req, today).1 == Failed
  {
  }

  /** A valid request, `{"name": "papa", "sale_price": 10}`, fails as written but creates the product once corrected. */
  lemma CreatePapa(b: Orders.Books, today: Orders.Day)
    requires forall k :: k in b.products.rows ==> b.products.rows[k].name != "papa"
    ensures CreateAsWritten(b, NewProduct("papa", Number(10.0), ""), today).1 == Failed
    ensures Create(b, NewProduct("papa", Number(10.0), ""), today).1 == Created(b.products.next)
  {
    var req := NewProduct("papa", Number(10.0), "");
    assert Stripped("papa");
    assert Strip(req.name) == "papa";
    Orders.NameTakenExact(b.products, "papa");
  }

  /**
   * `create_product` with the two undefined columns dropped: validation,
   * then the product, today's catalog price and the `kivi` variant with
   * its one-unit tier, as `_create_product_with_kivi` in the order flow
   * does; a name already in use makes the insert fail.
   */
  function Create(b: Orders.Books, req: NewProduct, today: Orders.Day): (r: (Orders.Books, Created))
  {
    if Invalid(req).Some? then (b, Invalid(req).value)
    else if Orders.NameTaken(b.products, Strip(req.name)) then (b, Failed)
    else
      var (b', pid) := Orders.CreateProduct(b, Strip(req.name), req.salePrice.value, NewUnit(req), today);
      (b', Created(pid))
  }

  /**
   * The errors, in order, leave every table as it was; otherwise the
   * product gets the next id, its stripped name and unit, today's
   * catalog price and a `kivi` tier from one unit at that price.
   */
  lemma CreateExact(b: Orders.Books, req: NewProduct, today: Orders.Day)
    ensures var r := Create(b, req, today);
            (r.1 == NameRequired <==> Strip(req.name) == "")
            && (r.1 == PriceRequired <==> Strip(req.name) != "" && !Positive(req.salePrice))
            && (!r.1.Created? ==> r.0 == b)
    ensures var r := Create(b, req, today);
            r.1.Created? <==>
              Strip(req.name) != "" && Positive(req.salePrice)
              && forall k :: k in b.products.rows ==> b.products.rows[k].name != Strip(req.name)
    ensures var r := Create(b, req, today);
            r.1.Created? ==>
              r.1.productId == b.products.next
              && r.0.products.rows[r.1.productId] == Product(Strip(req.name), NewUnit(req))
              && b.catalog.next in r.0.catalog.rows
              && r.0.catalog.rows[b.catalog.next] == CatalogPrice(r.1.productId, today.ordinal, req.salePrice.value, NewUnit(req))
              && r.0.variants.rows[b.variants.next] == Variant(r.1.productId, "kivi")
              && r.0.tiers.rows[b.tiers.next] == PriceTier(r.1.productId, Some(b.variants.next), 1.0, NewUnit(req), req.salePrice.value)
              && r.0.customers == b.customers && r.0.items == b.items && r.0.charges == b.charges
  {
    Orders.NameTakenExact(b.products, Strip(req.name));
  }

  /** Creating a product keeps the names unique. */
  lemma CreateKeepsNamesUnique(b: Orders.Books, req: NewProduct, today: Orders.Day)
    requires Orders.UniqueNames(b.products)
    ensures Orders.UniqueNames(Create(b, req, today).0.products)
  {
    CreateExact(b, req, today);
    var r := Create(b, req, today);
    if r.1.Created? {
      assert r.0.products.rows == b.products.rows[b.products.next := Product(Strip(req.name), NewUnit(req))];
    }
  }

  // ---------------------------------------------------------------------
  // Editing a product

  /** What `update_product` reads. An absent or empty unit is "". */
  datatype ProductEdit = ProductEdit(defaultUnit: string, salePrice: NumField)

  datatype Edited = NotFound | Edited(product: Product)

  function IsTodayRow(productId: nat, today: int): CatalogPrice -> bool
  {
    (c: CatalogPrice) => c.productId == productId && c.date == today
  }

  /** `CatalogPrice.query.filter(product, today).first()`: the first such row in id order. */
  function TodayRow(catalog: ValidTable<CatalogPrice>, productId: nat, today: int): (r: Option<nat>)
    ensures r.Some? ==> r.value in catalog.rows && IsTodayRow(productId, today)(catalog.rows[r.value])
    ensures r.Some? ==> forall k :: k in catalog.rows && IsTodayRow(productId, today)(catalog.rows[k]) ==> r.value <= k
    ensures r.None? <==> forall k :: k in catalog.rows ==> !IsTodayRow(productId, today)(catalog.rows[k])
  {
    SelectFirst(catalog, IsTodayRow(productId, today));
    var ids := Select(catalog, IsTodayRow(productId, today));
    if ids == [] then None else Some(ids[0])
  }

  /** The price block of `update_product`: today's row takes the price and unit, or a row for today is added. */
  function SetTodayPrice(catalog: ValidTable<CatalogPrice>, productId: nat, today: int, price: real, unit: string)
    : (r: ValidTable<CatalogPrice>)
  {
    var row := CatalogPrice(productId, today, price, unit);
    var t := TodayRow(catalog, productId, today);
    if t.Some? then Update(catalog, t.value, row) else Insert(catalog, row)
  }

  /**
   * Exactly one row changes: the first row of the product for today, or a
   * new row when there was none. Afterwards it is still the product's
   * first row for today and holds the price and unit.
   */
  lemma SetTodayPriceExact(catalog: ValidTable<CatalogPrice>, productId: nat, today: int, price: real, unit: string)
    ensures var r := SetTodayPrice(catalog, productId, today, price, unit);
            var t := if TodayRow(catalog, productId, today).Some? then TodayRow(catalog, productId, today).value
                     else catalog.next;
            TodayRow(r, productId, today) == Some(t)
            && r.rows[t] == CatalogPrice(productId, today, price, unit)
            && r.rows.Keys == catalog.rows.Keys + {t}
            && forall k :: k in catalog.rows && k != t ==> r.rows[k] == catalog.rows[k]
  {
    var r := SetTodayPrice(catalog, productId, today, price, unit);
    var old_t := TodayRow(catalog, productId, today);
    var t := if old_t.Some? then old_t.value else catalog.next;
    var p := IsTodayRow(productId, today);
    assert t in r.rows && p(r.rows[t]);
    forall k | k in r.rows && p(r.rows[k]) ensures t <= k {
      if k != t {
        assert k in catalog.rows && r.rows[k] == catalog.rows[k];
      }
    }
    assert TodayRow(r, productId, today).Some?;
  }

  /** Setting the same price twice is setting it once. */
  lemma SetTodayPriceIdempotent(catalog: ValidTable<CatalogPrice>, productId: nat, today: int, price: real, unit: string)
    ensures var r := SetTodayPrice(catalog, productId, today, price, unit);
            SetTodayPrice(r, productId, today, price, unit) == r
  {
    var r := SetTodayPrice(catalog, productId, today, price, unit);
    SetTodayPriceExact(catalog, productId, today, price, unit);
    var t := TodayRow(r, productId, today).value;
    assert r.rows[t := CatalogPrice(productId, today, price, unit)] == r.rows;
  }

  /**
   * `update_product`: a missing product is not found; a non-empty unit
   * replaces the default unit; a positive price is set for today in the
   * product's (possibly new) default unit. A price that is not a number
   * is ignored.
   */
  function Edit(b: Orders.Books, productId: nat, req: ProductEdit, today: Orders.Day): (r: (Orders.Books, Edited))
  {
    if productId !in b.products.rows then (b, NotFound)
    else
      var p := b.products.rows[productId];
      var p' := if req.defaultUnit != "" then p.(defaultUnit := req.defaultUnit) else p;
      var products := Update(b.products, productId, p');
      var catalog :=
        if Positive(req.salePrice) then SetTodayPrice(b.catalog, productId, today.ordinal, req.salePrice.value, p'.defaultUnit)
        else b.catalog;
      (b.(products := products, catalog := catalog), Edited(p'))
  }

  /**
   * Only the edited product and, for a positive price, its row for today
   * change; the price row carries the unit the product has after the edit.
   */
  lemma EditExact(b: Orders.Books, productId: nat, req: ProductEdit, today: Orders.Day)
    ensures var r := Edit(b, productId, req, today);
            (r.1 == NotFound <==> productId !in b.products.rows)
            && (r.1 == NotFound ==> r.0 == b)
    ensures var r := Edit(b, productId, req, today);
            r.1.Edited? ==>
              r.0.products.rows == b.products.rows[productId := r.1.product]
              && r.1.product.name == b.products.rows[productId].name
              && r.1.product.defaultUnit == OrText(req.defaultUnit, b.products.rows[productId].defaultUnit)
              && r.0.variants == b.variants && r.0.tiers == b.tiers && r.0.customers == b.customers
              && r.0.items == b.items && r.0.charges == b.charges
    ensures var r := Edit(b, productId, req, today);
            r.1.Edited? && !Positive(req.salePrice) ==> r.0.catalog == b.catalog
    ensures var r := Edit(b, productId, req, today);
            r.1.Edited? && Positive(req.salePrice) ==>
              var t := TodayRow(r.0.catalog, productId, today.ordinal);
              t.Some? && r.0.catalog.rows[t.value]
                         == CatalogPrice(productId, today.ordinal, req.salePrice.value, r.1.product.defaultUnit)
              && |r.0.catalog.rows.Keys - b.catalog.rows.Keys| <= 1
              && forall k :: k in b.catalog.rows && k != t.value ==> r.0.catalog.rows[k] == b.catalog.rows[k]
  {
    var r := Edit(b, productId, req, today);
    if r.1.Edited? && Positive(req.salePrice) {
      SetTodayPriceExact(b.catalog, productId, today.ordinal, req.salePrice.value, r.1.product.defaultUnit);
      var old_t := TodayRow(b.catalog, productId, today.ordinal);
      var t := if old_t.Some? then old_t.value else b.catalog.next;
      assert r.0.catalog.rows.Keys - b.catalog.rows.Keys <= {t};
      SubsetOfOne(r.0.catalog.rows.Keys - b.catalog.rows.Keys, t);
    }
  }

  lemma SubsetOfOne(s: set<nat>, t: nat)
    requires s <= {t}
    ensures |s| <= 1
  {
    if s != {} {
      assert s == {t};
    }
  }

  // ---------------------------------------------------------------------
  // The endpoints on the database

  /** `POST /products`, with the undefined columns dropped. */
  method CreateProduct(db: Store, req: NewProduct, today: Orders.Day) returns (r: Created)
    modifies db`products, db`catalog, db`variants, db`tiers
    ensures (Orders.BooksOf(db), r) == Create(old(Orders.BooksOf(db)), req, today)
  {
    var b := Create(Orders.BooksOf(db), req, today);
    db.products, db.catalog, db.variants, db.tiers := b.0.products, b.0.catalog, b.0.variants, b.0.tiers;
    r := b.1;
  }

  /** `PUT /products/<id>`. */
  method UpdateProduct(db: Store, productId: nat, req: ProductEdit, today: Orders.Day) returns (r: Edited)
    modifies db`products, db`catalog
    ensures (Orders.BooksOf(db), r) == Edit(old(Orders.BooksOf(db)), productId, req, today)
  {
    var b := Edit(Orders.BooksOf(db), productId, req, today);
    db.products, db.catalog := b.0.products, b.0.catalog;
    r := b.1;
  }
}
