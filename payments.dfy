/**
 * The payment endpoint over the store. A payment needs an order; it is
 * recorded, then either applied as the request lists it or split over
 * the customer's pending charges of that order, and the charges it
 * settles are marked paid.
 */
module Payments {
  import opened Common
  import opened Records
  import opened Tables
  import opened Db
  import opened Pricing
  import opened PaymentSplit

  /** One entry of the request's `applications`. */
  datatype AppRequest = AppRequest(chargeId: int, amount: real)

  /**
   * The body of `POST /payments`. `orderId` is None when it is missing or
   * does not parse as an integer; a missing amount reads as 0.
   */
  datatype PaymentRequest = PaymentRequest(orderId: Option<int>, customerId: int, amount: real, apps: seq<AppRequest>)

  datatype Outcome = OrderRequired | Created(paymentId: nat)

  /** `if not order_id`: None and 0 are both refused. */
  predicate OrderGiven(req: PaymentRequest)
  {
    req.orderId.Some? && req.orderId.value != 0
  }

  function MarkPaid(c: Charge): Charge
  {
    c.(status := "paid")
  }

  // ---------------------------------------------------------------
  // Explicit applications
  // ---------------------------------------------------------------

  /** An entry is recorded when its charge exists and its amount is positive. */
  predicate Recorded(charges: Table<Charge>, r: AppRequest)
  {
    r.chargeId >= 0 && r.chargeId as nat in charges.rows && r.amount > 0.0
  }

  /** The applications the explicit loop adds, in request order, each for the amount asked. */
  function ExplicitApps(charges: Table<Charge>, paymentId: nat, reqs: seq<AppRequest>): seq<PaymentApplication>
  {
    if reqs == [] then []
    else
      var r := reqs[|reqs| - 1];
      ExplicitApps(charges, paymentId, reqs[..|reqs| - 1])
        + (if Recorded(charges, r) then [PaymentApplication(paymentId, r.chargeId, r.amount)] else [])
  }

  /** A recorded entry of the charge covers on its own what the charge asks to be paid. */
  predicate SettledBy(charges: Table<Charge>, k: nat, reqs: seq<AppRequest>)
  {
    exists i :: 0 <= i < |reqs| && reqs[i].chargeId == k && Recorded(charges, reqs[i])
                && reqs[i].amount >= Due(charges.rows[k])
  }

  /**
   * The applications are exactly the recorded entries, in order and for
   * the amounts asked, so an amount above the charge's due is kept whole.
   */
  lemma {:induction false} ExplicitAppsExact(charges: Table<Charge>, paymentId: nat, reqs: seq<AppRequest>)
    ensures forall a :: a in ExplicitApps(charges, paymentId, reqs) <==>
              a.paymentId == paymentId && AppRequest(a.chargeId, a.amount) in reqs && Recorded(charges, AppRequest(a.chargeId, a.amount))
  {
    if reqs != [] {
      var init := reqs[..|reqs| - 1];
      var r := reqs[|reqs| - 1];
      ExplicitAppsExact(charges, paymentId, init);
      assert reqs == init + [r];
      forall a ensures a in ExplicitApps(charges, paymentId, reqs) <==>
              a.paymentId == paymentId && AppRequest(a.chargeId, a.amount) in reqs && Recorded(charges, AppRequest(a.chargeId, a.amount))
      {
        assert AppRequest(a.chargeId, a.amount) in reqs <==> AppRequest(a.chargeId, a.amount) in init || AppRequest(a.chargeId, a.amount) == r;
      }
    }
  }

  /** One more entry: an insert when it is recorded, and the charge marked paid when it covers the due. */
  lemma {:induction false} ExplicitStep(charges: Table<Charge>, paymentId: nat, reqs: seq<AppRequest>, r: AppRequest)
    ensures ExplicitApps(charges, paymentId, reqs + [r])
            == ExplicitApps(charges, paymentId, reqs)
               + (if Recorded(charges, r) then [PaymentApplication(paymentId, r.chargeId, r.amount)] else [])
    ensures forall k :: k in charges.rows ==>
              (SettledBy(charges, k, reqs + [r]) <==>
                 SettledBy(charges, k, reqs) || (r.chargeId == k && Recorded(charges, r) && r.amount >= Due(charges.rows[k])))
  {
    assert (reqs + [r])[..|reqs|] == reqs;
    forall k | k in charges.rows
      ensures SettledBy(charges, k, reqs + [r]) <==>
                SettledBy(charges, k, reqs) || (r.chargeId == k && Recorded(charges, r) && r.amount >= Due(charges.rows[k]))
    {
      if SettledBy(charges, k, reqs + [r]) {
        var i :| 0 <= i < |reqs + [r]| && (reqs + [r])[i].chargeId == k && Recorded(charges, (reqs + [r])[i])
                 && (reqs + [r])[i].amount >= Due(charges.rows[k]);
        if i < |reqs| {
          assert (reqs + [r])[i] == reqs[i];
        }
      }
      if SettledBy(charges, k, reqs) {
        var i :| 0 <= i < |reqs| && reqs[i].chargeId == k && Recorded(charges, reqs[i]) && reqs[i].amount >= Due(charges.rows[k]);
        assert (reqs + [r])[i] == reqs[i];
      }
      if r.chargeId == k && Recorded(charges, r) && r.amount >= Due(charges.rows[k]) {
        assert (reqs + [r])[|reqs|] == r;
      }
    }
  }

  /** The charges after the explicit loop: the settled ones marked paid, every other row as it was. */
  predicate ExplicitMarked(charges: Table<Charge>, reqs: seq<AppRequest>, charges': Table<Charge>)
  {
    charges'.next == charges.next && charges'.rows.Keys == charges.rows.Keys
    && forall k :: k in charges.rows ==>
         charges'.rows[k] == (if SettledBy(charges, k, reqs) then MarkPaid(charges.rows[k]) else charges.rows[k])
  }

  /** Marking a charge paid leaves what it asks to be paid alone. */
  lemma {:induction false} ExplicitMarkedDue(charges: Table<Charge>, reqs: seq<AppRequest>, cur: Table<Charge>, k: nat)
    requires ExplicitMarked(charges, reqs, cur) && k in charges.rows
    ensures k in cur.rows && Due(cur.rows[k]) == Due(charges.rows[k])
  {
  }

  /** One more entry: the charge it settles is marked paid, nothing else changes. */
  lemma {:induction false} ExplicitMarkedStep(charges: Table<Charge>, reqs: seq<AppRequest>, r: AppRequest, cur: Table<Charge>)
    requires ExplicitMarked(charges, reqs, cur)
    ensures Recorded(charges, r) && r.amount >= Due(charges.rows[r.chargeId as nat]) ==>
              ExplicitMarked(charges, reqs + [r], Update(cur, r.chargeId as nat, MarkPaid(cur.rows[r.chargeId as nat])))
    ensures !(Recorded(charges, r) && r.amount >= Due(charges.rows[r.chargeId as nat])) ==>
              ExplicitMarked(charges, reqs + [r], cur)
  {
    ExplicitStep(charges, 0, reqs, r);
  }

  /** The explicit loop: each entry for an existing charge and a positive amount is recorded as given. */
  method ApplyExplicit(charges: ValidTable<Charge>, apps: ValidTable<PaymentApplication>, paymentId: nat, reqs: seq<AppRequest>)
    returns (charges': ValidTable<Charge>, apps': ValidTable<PaymentApplication>)
    ensures apps' == InsertAll(apps, ExplicitApps(charges, paymentId, reqs))
    ensures ExplicitMarked(charges, reqs, charges')
  {
    charges', apps' := charges, apps;
    var i := 0;
    while i < |reqs|
      invariant 0 <= i <= |reqs|
      invariant apps' == InsertAll(apps, ExplicitApps(charges, paymentId, reqs[..i]))
      invariant ExplicitMarked(charges, reqs[..i], charges')
    {
      var r := reqs[i];
      assert reqs[..i + 1] == reqs[..i] + [r];
      ExplicitStep(charges, paymentId, reqs[..i], r);
      ExplicitMarkedStep(charges, reqs[..i], r, charges');
      if r.chargeId >= 0 && r.chargeId as nat in charges'.rows && r.amount > 0.0 {
        var c := charges'.rows[r.chargeId as nat];
        ExplicitMarkedDue(charges, reqs[..i], charges', r.chargeId as nat);
        InsertAllSnoc(apps, ExplicitApps(charges, paymentId, reqs[..i]), PaymentApplication(paymentId, r.chargeId, r.amount));
        apps' := Insert(apps', PaymentApplication(paymentId, r.chargeId, r.amount));
        assert Recorded(charges, r);
        if r.amount >= Due(c) {
          charges' := Update(charges', r.chargeId as nat, MarkPaid(c));
        }
      } else {
        assert !Recorded(charges, r);
        assert ExplicitApps(charges, paymentId, reqs[..i + 1]) == ExplicitApps(charges, paymentId, reqs[..i]);
      }
      i := i + 1;
    }
    assert reqs[..i] == reqs;
  }

  // ---------------------------------------------------------------
  // Automatic split
  // ---------------------------------------------------------------

  /** The customer's pending charges of the order, in id order. */
  function PendingCharges(charges: Table<Charge>, customerId: int, orderId: int): seq<nat>
  {
    Select(charges, (c: Charge) => c.customerId == customerId && c.status == "pending" && c.orderId == orderId)
  }

  /** What has been applied to a charge so far. */
  function PaidOn(apps: Table<PaymentApplication>, chargeId: nat): real
  {
    SumWhere(apps, (a: PaymentApplication) => a.chargeId == chargeId, (a: PaymentApplication) => a.amount)
  }

  /** `max(0, max(0, total - discount) - paid_prev)`. */
  function Owed(charges: Table<Charge>, apps: Table<PaymentApplication>, id: nat): real
    requires id in charges.rows
  {
    Max0(Due(charges.rows[id]) - PaidOn(apps, id))
  }

  /** The split's candidates: each listed charge with what it still owes. */
  function CandidatesOf(charges: Table<Charge>, apps: Table<PaymentApplication>, ids: seq<nat>): (cands: seq<Candidate>)
    requires forall i :: 0 <= i < |ids| ==> ids[i] in charges.rows
  {
    if ids == [] then []
    else CandidatesOf(charges, apps, ids[..|ids| - 1]) + [Candidate(ids[|ids| - 1], Owed(charges, apps, ids[|ids| - 1]))]
  }

  /** One candidate per listed charge, in the same order, owing what the charge still owes. */
  lemma {:induction false} CandidatesOfExact(charges: Table<Charge>, apps: Table<PaymentApplication>, ids: seq<nat>)
    requires forall i :: 0 <= i < |ids| ==> ids[i] in charges.rows
    ensures |CandidatesOf(charges, apps, ids)| == |ids|
    ensures forall i :: 0 <= i < |ids| ==> CandidatesOf(charges, apps, ids)[i] == Candidate(ids[i], Owed(charges, apps, ids[i]))
  {
    if ids != [] {
      CandidatesOfExact(charges, apps, ids[..|ids| - 1]);
    }
  }

  /** The loop that works out each charge's due and the total due. */
  method Dues(charges: Table<Charge>, apps: Table<PaymentApplication>, ids: seq<nat>) returns (cands: seq<Candidate>, total: real)
    requires forall i :: 0 <= i < |ids| ==> ids[i] in charges.rows
    ensures cands == CandidatesOf(charges, apps, ids)
    ensures total == TotalDue(cands)
  {
    cands, total := [], 0.0;
    var i := 0;
    while i < |ids|
      invariant 0 <= i <= |ids|
      invariant cands == CandidatesOf(charges, apps, ids[..i])
      invariant total == TotalDue(cands)
    {
      var due := Owed(charges, apps, ids[i]);
      var c := Candidate(ids[i], due);
      assert ids[..i + 1][..i] == ids[..i];
      assert CandidatesOf(charges, apps, ids[..i + 1]) == cands + [c];
      assert (cands + [c])[..|cands|] == cands;
      cands := cands + [c];
      if due > 0.0 {
        total := total + due;
      }
      i := i + 1;
    }
    assert ids[..i] == ids;
  }

  /** The candidates of a request: the pending charges of its customer and order. */
  function AutoCandidates(charges: Table<Charge>, apps: Table<PaymentApplication>, customerId: int, orderId: int): seq<Candidate>
  {
    SelectExact(charges, (c: Charge) => c.customerId == customerId && c.status == "pending" && c.orderId == orderId);
    CandidatesOf(charges, apps, PendingCharges(charges, customerId, orderId))
  }

  /** The applications the automatic mode persists. */
  function AutoApps(charges: Table<Charge>, apps: Table<PaymentApplication>, req: PaymentRequest, paymentId: nat): seq<PaymentApplication>
    requires OrderGiven(req)
  {
    Applied(paymentId, SplitShares(AutoCandidates(charges, apps, req.customerId, req.orderId.value), RoundHalfEven(req.amount)))
  }

  /** The persisting loop: one insert per share that gives something. */
  method Persist(apps: ValidTable<PaymentApplication>, paymentId: nat, shares: seq<Share>) returns (apps': ValidTable<PaymentApplication>)
    ensures apps' == InsertAll(apps, Applied(paymentId, shares))
  {
    apps' := apps;
    var i := 0;
    while i < |shares|
      invariant 0 <= i <= |shares|
      invariant apps' == InsertAll(apps, Applied(paymentId, shares[..i]))
    {
      var sh := shares[i];
      assert shares[..i + 1][..i] == shares[..i];
      if sh.units > 0 {
        var amt := MinReal(sh.due, sh.units as real);
        if amt > 0.0 {
          InsertAllSnoc(apps, Applied(paymentId, shares[..i]), PaymentApplication(paymentId, sh.chargeId, amt));
          apps' := Insert(apps', PaymentApplication(paymentId, sh.chargeId, amt));
        } else {
          assert Applied(paymentId, shares[..i + 1]) == Applied(paymentId, shares[..i]);
        }
      } else {
        assert Applied(paymentId, shares[..i + 1]) == Applied(paymentId, shares[..i]);
      }
      i := i + 1;
    }
    assert shares[..i] == shares;
  }

  /** `paid >= due and due > 0`, with everything applied so far. */
  predicate PaidUp(charges: Table<Charge>, apps: Table<PaymentApplication>, k: nat)
    requires k in charges.rows
  {
    PaidOn(apps, k) >= Due(charges.rows[k]) && Due(charges.rows[k]) > 0.0
  }

  /** The charges after the status loop: the listed ones now paid up marked paid, every other row as it was. */
  predicate AutoMarked(charges: Table<Charge>, apps: Table<PaymentApplication>, ids: seq<nat>, charges': Table<Charge>)
  {
    charges'.next == charges.next && charges'.rows.Keys == charges.rows.Keys
    && forall k :: k in charges.rows ==>
         charges'.rows[k] == (if k in ids && PaidUp(charges, apps, k) then MarkPaid(charges.rows[k]) else charges.rows[k])
  }

  /** One more listed charge: marked paid when it is paid up, nothing else changes. */
  lemma {:induction false} AutoMarkedStep(charges: Table<Charge>, apps: Table<PaymentApplication>, ids: seq<nat>, k: nat, cur: Table<Charge>)
    requires AutoMarked(charges, apps, ids, cur) && k in charges.rows
    ensures k in cur.rows && Due(cur.rows[k]) == Due(charges.rows[k])
    ensures PaidUp(charges, apps, k) ==> AutoMarked(charges, apps, ids + [k], Update(cur, k, MarkPaid(cur.rows[k])))
    ensures !PaidUp(charges, apps, k) ==> AutoMarked(charges, apps, ids + [k], cur)
  {
    assert forall j :: j in ids + [k] <==> j in ids || j == k;
  }

  /** The status loop over the candidates. */
  method MarkPaidUp(charges: ValidTable<Charge>, apps: Table<PaymentApplication>, ids: seq<nat>) returns (charges': ValidTable<Charge>)
    requires forall i :: 0 <= i < |ids| ==> ids[i] in charges.rows
    ensures AutoMarked(charges, apps, ids, charges')
  {
    charges' := charges;
    var i := 0;
    while i < |ids|
      invariant 0 <= i <= |ids|
      invariant AutoMarked(charges, apps, ids[..i], charges')
    {
      var k := ids[i];
      assert ids[..i + 1] == ids[..i] + [k];
      AutoMarkedStep(charges, apps, ids[..i], k, charges');
      var c := charges'.rows[k];
      var paid := PaidOn(apps, k);
      if paid >= Due(c) && Due(c) > 0.0 {
        charges' := Update(charges', k, MarkPaid(c));
      }
      i := i + 1;
    }
    assert ids[..i] == ids;
  }

  /** An application the automatic mode makes: for one of the listed charges, positive and within what it still owed. */
  predicate AutoApplied(charges: Table<Charge>, apps: Table<PaymentApplication>, ids: seq<nat>, a: PaymentApplication)
    requires forall i :: 0 <= i < |ids| ==> ids[i] in charges.rows
  {
    exists m :: 0 <= m < |ids| && a.chargeId == ids[m] && 0.0 < a.amount <= Owed(charges, apps, ids[m])
  }

  /**
   * Every application of the automatic mode is for a pending charge of
   * the customer and order, is positive and is never above what that
   * charge still owed.
   */
  lemma {:induction false} AutoAppsBounded(charges: Table<Charge>, apps: Table<PaymentApplication>, req: PaymentRequest, paymentId: nat)
    requires OrderGiven(req)
    ensures forall i :: 0 <= i < |PendingCharges(charges, req.customerId, req.orderId.value)| ==>
              PendingCharges(charges, req.customerId, req.orderId.value)[i] in charges.rows
    ensures forall i :: 0 <= i < |AutoApps(charges, apps, req, paymentId)| ==>
              AutoApps(charges, apps, req, paymentId)[i].paymentId == paymentId
              && AutoApplied(charges, apps, PendingCharges(charges, req.customerId, req.orderId.value), AutoApps(charges, apps, req, paymentId)[i])
  {
    var ids := PendingCharges(charges, req.customerId, req.orderId.value);
    SelectExact(charges, (c: Charge) => c.customerId == req.customerId && c.status == "pending" && c.orderId == req.orderId.value);
    var cands := AutoCandidates(charges, apps, req.customerId, req.orderId.value);
    var remaining := RoundHalfEven(req.amount);
    var shares := SplitShares(cands, remaining);
    CandidatesOfExact(charges, apps, ids);
    SplitFromCandidates(cands, remaining);
    AppliedBounded(paymentId, shares);
    var out := AutoApps(charges, apps, req, paymentId);
    forall i | 0 <= i < |out| ensures AutoApplied(charges, apps, ids, out[i]) {
      var k :| 0 <= k < |shares| && shares[k].chargeId == out[i].chargeId
               && out[i].amount == MinReal(shares[k].due, shares[k].units as real);
      assert SplitShare(cands, shares[k]);
      var m :| 0 <= m < |cands| && cands[m].chargeId == shares[k].chargeId && cands[m].due == shares[k].due;
      assert cands[m] == Candidate(ids[m], Owed(charges, apps, ids[m]));
    }
  }

  /** No charge gets two applications from the automatic mode. */
  lemma {:induction false} AutoAppsOnePerCharge(charges: Table<Charge>, apps: Table<PaymentApplication>, req: PaymentRequest, paymentId: nat)
    requires OrderGiven(req)
    ensures DistinctBy(AutoApps(charges, apps, req, paymentId), AppliedId)
  {
    var ids := PendingCharges(charges, req.customerId, req.orderId.value);
    SelectExact(charges, (c: Charge) => c.customerId == req.customerId && c.status == "pending" && c.orderId == req.orderId.value);
    SelectIncreasing(charges, (c: Charge) => c.customerId == req.customerId && c.status == "pending" && c.orderId == req.orderId.value);
    var cands := AutoCandidates(charges, apps, req.customerId, req.orderId.value);
    var shares := SplitShares(cands, RoundHalfEven(req.amount));
    CandidatesOfExact(charges, apps, ids);
    SplitFromCandidates(cands, RoundHalfEven(req.amount));
    assert DistinctBy(cands, CandidateId) by {
      forall i, j | 0 <= i < j < |cands| ensures cands[i].chargeId != cands[j].chargeId {
        assert cands[i].chargeId == ids[i] && cands[j].chargeId == ids[j];
      }
    }
    AppliedDistinct(paymentId, shares);
  }

  /**
   * The automatic mode applies at most the rounded amount; when every
   * charge owes a whole amount and the rounded amount is within the total
   * owed, it applies exactly the rounded amount.
   */
  lemma {:induction false} AutoAppsTotal(charges: Table<Charge>, apps: Table<PaymentApplication>, req: PaymentRequest, paymentId: nat)
    requires OrderGiven(req)
    ensures SumOf(AutoApps(charges, apps, req, paymentId), Amount) <= Max0(RoundHalfEven(req.amount) as real)
    ensures var cands := AutoCandidates(charges, apps, req.customerId, req.orderId.value);
            WholeCandidates(cands) && RoundHalfEven(req.amount) as real <= TotalDue(cands) ==>
              SumOf(AutoApps(charges, apps, req, paymentId), Amount) == Max0(RoundHalfEven(req.amount) as real)
  {
    var cands := AutoCandidates(charges, apps, req.customerId, req.orderId.value);
    var remaining := RoundHalfEven(req.amount);
    var shares := SplitShares(cands, remaining);
    SplitFromCandidates(cands, remaining);
    SplitWithinAmount(cands, remaining);
    assert forall i :: 0 <= i < |shares| ==> SplitShare(cands, shares[i]);
    AppliedWithin(paymentId, shares);
    if WholeCandidates(cands) && remaining as real <= TotalDue(cands) {
      SplitExact(cands, remaining);
      AppliedSum(paymentId, shares);
    }
  }

  /** `create_payment`. */
  method CreatePayment(db: Store, req: PaymentRequest) returns (r: Outcome)
    modifies db`payments, db`applications, db`charges
    ensures !OrderGiven(req) ==> r == OrderRequired && unchanged(db)
    ensures OrderGiven(req) ==>
              var pid := old(db.payments.next);
              r == Created(pid)
              && db.payments == Insert(old(db.payments), Payment(req.customerId, req.amount))
              && (req.apps != [] ==>
                    db.applications == InsertAll(old(db.applications), ExplicitApps(old(db.charges), pid, req.apps))
                    && ExplicitMarked(old(db.charges), req.apps, db.charges))
              && (req.apps == [] ==>
                    db.applications == InsertAll(old(db.applications), AutoApps(old(db.charges), old(db.applications), req, pid))
                    && AutoMarked(old(db.charges), db.applications,
                                  PendingCharges(old(db.charges), req.customerId, req.orderId.value), db.charges))
  {
    if !OrderGiven(req) {
      return OrderRequired;
    }
    var orderId := req.orderId.value;
    var pid := db.payments.next;
    db.payments := Insert(db.payments, Payment(req.customerId, req.amount));
    if req.apps != [] {
      db.charges, db.applications := ApplyExplicit(db.charges, db.applications, pid, req.apps);
    } else {
      var ids := PendingCharges(db.charges, req.customerId, orderId);
      SelectExact(db.charges, (c: Charge) => c.customerId == req.customerId && c.status == "pending" && c.orderId == orderId);
      var cands, total := Dues(db.charges, db.applications, ids);
      var remaining := RoundHalfEven(req.amount);
      var shares := Split(cands, total, remaining);
      db.applications := Persist(db.applications, pid, shares);
      db.charges := MarkPaidUp(db.charges, db.applications, ids);
    }
    r := Created(pid);
  }
}
