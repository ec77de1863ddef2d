/**
 * The database as an in-memory store. Every table is a map from id to
 * record plus the id its next insert receives. The counter only moves
 * forward, like an AUTOINCREMENT key: a larger id means a later insert,
 * and a query that returns rows "in id order" lists keys in ascending
 * order. On a table nothing was deleted from this is the id SQLite
 * hands out; after a delete of the largest id SQLite hands that id out
 * again, and the model does not.
 */
module Tables {

  /** One table: its rows by id and the id the next insert receives. */
  datatype Table<T> = Table(rows: map<nat, T>, next: nat)

  function Empty<T>(): Table<T>
  {
    Table(map[], 1)
  }

  /** Ids start at 1 and every stored id is below the counter. */
  ghost predicate WellFormed<T>(t: Table<T>)
  {
    t.next >= 1 && forall k :: k in t.rows ==> 1 <= k < t.next
  }

  /** A table as the database keeps it. */
  type ValidTable<T> = t: Table<T> | WellFormed(t) witness Table(map[], 1)

  /** `INSERT`: the record is stored under the counter, which moves on. */
  function Insert<T>(t: Table<T>, r: T): (t': Table<T>)
    ensures WellFormed(t) ==> WellFormed(t') && t.next !in t.rows
  {
    Table(t.rows[t.next := r], t.next + 1)
  }

  /** `UPDATE` of one existing row. */
  function Update<T>(t: Table<T>, id: nat, r: T): (t': Table<T>)
    requires id in t.rows
    ensures t'.rows.Keys == t.rows.Keys
    ensures WellFormed(t) ==> WellFormed(t')
  {
    Table(t.rows[id := r], t.next)
  }

  /** `DELETE` of one row; the model's counter does not move back, so the id is never handed out again. */
  function Remove<T>(t: Table<T>, id: nat): (t': Table<T>)
    ensures t'.rows.Keys == t.rows.Keys - {id} && t'.next == t.next
    ensures forall k :: k in t'.rows ==> t'.rows[k] == t.rows[k]
    ensures WellFormed(t) ==> WellFormed(t')
  {
    Table(t.rows - {id}, t.next)
  }

  /** The records inserted one after the other, in order. */
  function InsertAll<T>(t: Table<T>, recs: seq<T>): (t': Table<T>)
    ensures t'.next == t.next + |recs|
    ensures WellFormed(t) ==> WellFormed(t')
  {
    if recs == [] then t else Insert(InsertAll(t, recs[..|recs| - 1]), recs[|recs| - 1])
  }

  lemma {:induction false} InsertAllSnoc<T>(t: Table<T>, recs: seq<T>, r: T)
    ensures InsertAll(t, recs + [r]) == Insert(InsertAll(t, recs), r)
  {
    assert (recs + [r])[..|recs|] == recs;
  }

  /** The inserted records sit at the ids the counter had, in order; nothing else moves. */
  lemma {:induction false} InsertAllRows<T>(t: Table<T>, recs: seq<T>)
    requires WellFormed(t)
    ensures forall k :: k in InsertAll(t, recs).rows <==> k in t.rows || t.next <= k < t.next + |recs|
    ensures forall k :: t.next <= k < t.next + |recs| ==> InsertAll(t, recs).rows[k] == recs[k - t.next]
    ensures forall k :: k in t.rows ==> InsertAll(t, recs).rows[k] == t.rows[k]
  {
    if recs != [] {
      InsertAllRows(t, recs[..|recs| - 1]);
    }
  }

  /** The `i`-th inserted record sits at the `i`-th id from the counter. */
  lemma InsertAllAt<T>(t: Table<T>, recs: seq<T>, i: nat)
    requires WellFormed(t) && i < |recs|
    ensures t.next + i in InsertAll(t, recs).rows && InsertAll(t, recs).rows[t.next + i] == recs[i]
  {
    InsertAllRows(t, recs);
  }

  /**
   * `t'` is `t` with `n` more rows at the next ids: the old rows are kept,
   * nothing else appears, and every new row satisfies `p`.
   */
  ghost predicate Extends<T>(t: Table<T>, t': Table<T>, n: nat, p: T -> bool)
  {
    t'.next == t.next + n
    && (forall k :: k in t.rows ==> k in t'.rows && t'.rows[k] == t.rows[k])
    && (forall k :: k in t'.rows ==> k in t.rows || t.next <= k)
    && (forall k :: t.next <= k < t'.next ==> k in t'.rows && p(t'.rows[k]))
  }

  lemma ExtendsSelf<T>(t: Table<T>, p: T -> bool)
    ensures Extends(t, t, 0, p)
  {
  }

  lemma ExtendsByInsert<T>(t: Table<T>, r: T, p: T -> bool)
    requires WellFormed(t) && p(r)
    ensures Extends(t, Insert(t, r), 1, p)
  {
  }

  lemma {:induction false} ExtendsTrans<T>(a: Table<T>, b: Table<T>, c: Table<T>, n: nat, m: nat, p: T -> bool)
    requires Extends(a, b, n, p) && Extends(b, c, m, p)
    ensures Extends(a, c, n + m, p)
  {
    forall k | a.next <= k < c.next ensures k in c.rows && p(c.rows[k]) {
      if k < b.next {
        assert k in b.rows && p(b.rows[k]);
      }
    }
  }

  /** The keys below `n` whose record satisfies `p`, in ascending order. */
  function SelectBelow<T>(m: map<nat, T>, n: nat, p: T -> bool): seq<nat>
  {
    if n == 0 then []
    else SelectBelow(m, n - 1, p) + (if n - 1 in m && p(m[n - 1]) then [n - 1] else [])
  }

  /** Exactly the keys below `n` whose record satisfies `p` are selected. */
  lemma {:induction false} SelectBelowExact<T>(m: map<nat, T>, n: nat, p: T -> bool)
    ensures forall i :: 0 <= i < |SelectBelow(m, n, p)| ==>
              SelectBelow(m, n, p)[i] in m && SelectBelow(m, n, p)[i] < n && p(m[SelectBelow(m, n, p)[i]])
    ensures forall k :: k in m && k < n && p(m[k]) ==> k in SelectBelow(m, n, p)
  {
    if n > 0 {
      SelectBelowExact(m, n - 1, p);
    }
  }

  lemma {:induction false} SelectBelowIncreasing<T>(m: map<nat, T>, n: nat, p: T -> bool)
    ensures forall i, j :: 0 <= i < j < |SelectBelow(m, n, p)| ==> SelectBelow(m, n, p)[i] < SelectBelow(m, n, p)[j]
  {
    if n > 0 {
      SelectBelowIncreasing(m, n - 1, p);
      SelectBelowExact(m, n - 1, p);
      var r0 := SelectBelow(m, n - 1, p);
      var r := SelectBelow(m, n, p);
      forall i, j | 0 <= i < j < |r| ensures r[i] < r[j] {
        if j < |r0| {
          assert r[i] == r0[i] && r[j] == r0[j];
        } else {
          assert r[i] == r0[i] && r[j] == n - 1;
        }
      }
    }
  }

  /** `Model.query.filter(p)`: the ids of the rows satisfying `p`, in id order. */
  function Select<T>(t: Table<T>, p: T -> bool): seq<nat>
  {
    SelectBelow(t.rows, t.next, p)
  }

  /** Exactly the stored ids whose record satisfies `p` are selected. */
  lemma {:induction false} SelectExact<T>(t: Table<T>, p: T -> bool)
    ensures forall i :: 0 <= i < |Select(t, p)| ==>
              Select(t, p)[i] in t.rows && Select(t, p)[i] < t.next && p(t.rows[Select(t, p)[i]])
    ensures forall k :: k in t.rows && k < t.next && p(t.rows[k]) ==> k in Select(t, p)
  {
    SelectBelowExact(t.rows, t.next, p);
  }

  /** The selected ids come in strictly increasing order, so none repeats. */
  lemma {:induction false} SelectIncreasing<T>(t: Table<T>, p: T -> bool)
    ensures forall i, j :: 0 <= i < j < |Select(t, p)| ==> Select(t, p)[i] < Select(t, p)[j]
  {
    SelectBelowIncreasing(t.rows, t.next, p);
  }

  /** The first selected id is the smallest id whose record satisfies `p`; nothing is selected only when no record does. */
  lemma SelectFirst<T>(t: ValidTable<T>, p: T -> bool)
    ensures Select(t, p) != [] ==>
              Select(t, p)[0] in t.rows && p(t.rows[Select(t, p)[0]])
              && forall k :: k in t.rows && p(t.rows[k]) ==> Select(t, p)[0] <= k
    ensures Select(t, p) == [] <==> forall k :: k in t.rows ==> !p(t.rows[k])
  {
    var ids := Select(t, p);
    SelectExact(t, p);
    SelectIncreasing(t, p);
    forall k | k in ids ensures ids[0] <= k {
      var j :| 0 <= j < |ids| && ids[j] == k;
      if j > 0 {
        assert ids[0] < ids[j];
      }
    }
  }

  /** A selected id does not occur among the ids selected before it. */
  lemma {:induction false} SelectedOnce<T>(t: Table<T>, p: T -> bool, i: nat)
    requires i < |Select(t, p)|
    ensures Select(t, p)[i] !in Select(t, p)[..i]
  {
    SelectIncreasing(t, p);
  }

  /** The records under `ids`, in the same order. */
  function Rows<T>(t: Table<T>, ids: seq<nat>): (r: seq<T>)
    requires forall i :: 0 <= i < |ids| ==> ids[i] in t.rows
    ensures |r| == |ids|
    ensures forall i :: 0 <= i < |ids| ==> r[i] == t.rows[ids[i]]
  {
    if ids == [] then [] else [t.rows[ids[0]]] + Rows(t, ids[1..])
  }

  /** `Model.query.filter(p).all()`: the records satisfying `p`, in id order. */
  function Where<T>(t: Table<T>, p: T -> bool): (r: seq<T>)
    ensures |r| == |Select(t, p)|
    ensures forall i :: 0 <= i < |r| ==> Select(t, p)[i] in t.rows && r[i] == t.rows[Select(t, p)[i]] && p(r[i])
  {
    SelectExact(t, p);
    Rows(t, Select(t, p))
  }

  /** The same records paired with their ids. */
  function Entries<T>(t: Table<T>, p: T -> bool): (r: seq<(nat, T)>)
    ensures |r| == |Select(t, p)|
    ensures forall i :: 0 <= i < |r| ==> r[i].0 == Select(t, p)[i] && r[i].0 in t.rows && r[i].1 == t.rows[r[i].0] && p(r[i].1)
  {
    SelectExact(t, p);
    var ids := Select(t, p);
    seq(|ids|, i requires 0 <= i < |ids| => (ids[i], t.rows[ids[i]]))
  }

  /** `sum(f(x) for x in m if p(x))` over the records with ids below `n`, in id order. */
  function SumBelow<T>(m: map<nat, T>, n: nat, p: T -> bool, f: T -> real): real
  {
    if n == 0 then 0.0
    else SumBelow(m, n - 1, p, f) + (if n - 1 in m && p(m[n - 1]) then f(m[n - 1]) else 0.0)
  }

  /** `sum(f(x) for x in Model.query.filter(p))` over a whole table. */
  function SumWhere<T>(t: Table<T>, p: T -> bool, f: T -> real): real
  {
    SumBelow(t.rows, t.next, p, f)
  }

  lemma {:induction false} SumBelowNonNegative<T>(m: map<nat, T>, n: nat, p: T -> bool, f: T -> real)
    requires forall k :: k in m && k < n && p(m[k]) ==> f(m[k]) >= 0.0
    ensures SumBelow(m, n, p, f) >= 0.0
  {
    if n > 0 {
      SumBelowNonNegative(m, n - 1, p, f);
    }
  }

  /** A sum over records none of which is selected is zero. */
  lemma {:induction false} SumBelowNone<T>(m: map<nat, T>, n: nat, p: T -> bool, f: T -> real)
    requires forall k :: k in m ==> !p(m[k])
    ensures SumBelow(m, n, p, f) == 0.0
  {
    if n > 0 {
      SumBelowNone(m, n - 1, p, f);
    }
  }

  /** An insert adds its record's term to a table sum, when the record is selected. */
  lemma SumWhereInsert<T>(t: Table<T>, r: T, p: T -> bool, f: T -> real)
    ensures SumWhere(Insert(t, r), p, f) == SumWhere(t, p, f) + (if p(r) then f(r) else 0.0)
  {
    SumBelowFrame(Insert(t, r).rows, t.rows, t.next, p, f);
  }

  /** Records stored at or above `n` do not change a sum over ids below `n`. */
  lemma {:induction false} SumBelowFrame<T>(m: map<nat, T>, m': map<nat, T>, n: nat, p: T -> bool, f: T -> real)
    requires forall k :: k < n ==> (k in m <==> k in m') && (k in m ==> m[k] == m'[k])
    ensures SumBelow(m, n, p, f) == SumBelow(m', n, p, f)
  {
    if n > 0 {
      SumBelowFrame(m, m', n - 1, p, f);
    }
  }
}

module Db {
  import opened Records
  import opened Tables

  /** The tables of the application, each a field the endpoints reassign. */
  class Store {
    var orders: ValidTable<Order>
    var customers: ValidTable<Customer>
    var products: ValidTable<Product>
    var variants: ValidTable<Variant>
    var tiers: ValidTable<PriceTier>
    var catalog: ValidTable<CatalogPrice>
    var priceHistory: ValidTable<PriceRecord>
    var competitorPrices: ValidTable<CompetitorPrice>
    var items: ValidTable<OrderItem>
    var charges: ValidTable<Charge>
    var purchases: ValidTable<Purchase>
    var allocations: ValidTable<Allocation>
    var lots: ValidTable<InventoryLot>
    var payments: ValidTable<Payment>
    var applications: ValidTable<PaymentApplication>
    var vendorPrices: ValidTable<VendorPrice>
    var merchantUsers: ValidTable<MerchantUser>
    var merchantOrders: ValidTable<MerchantOrder>
    var merchantItems: ValidTable<MerchantOrderItem>

    /** An empty database. */
    constructor ()
      ensures orders == Empty() && items == Empty() && charges == Empty() && purchases == Empty()
      ensures allocations == Empty() && payments == Empty() && applications == Empty()
    {
      orders, customers, products, variants := Empty(), Empty(), Empty(), Empty();
      tiers, catalog, priceHistory, items := Empty(), Empty(), Empty(), Empty();
      charges, purchases, allocations, lots := Empty(), Empty(), Empty(), Empty();
      payments, applications, vendorPrices, competitorPrices := Empty(), Empty(), Empty(), Empty();
      merchantUsers, merchantOrders, merchantItems := Empty(), Empty(), Empty();
    }
  }
}
