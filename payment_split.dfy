/**
 * The automatic split of a payment across a customer's pending charges:
 * every charge first gets the whole part of its proportional share, then
 * the units left over go one at a time, round-robin, to the charges with
 * the largest fractional parts that can still take a whole unit.
 */
module PaymentSplit {
  import opened Common
  import opened Records

  /** A charge taking part in the split, with what it still owes. */
  datatype Candidate = Candidate(chargeId: nat, due: real)

  /** `(charge_id, share_int, remainder)`, with the charge's due carried alongside. */
  datatype Share = Share(chargeId: nat, due: real, units: int, rem: real)

  function DueOf(c: Candidate): real { c.due }
  function ShareDue(sh: Share): real { sh.due }
  function UnitsOf(sh: Share): real { sh.units as real }
  function RemOf(sh: Share): real { sh.rem }

  /** Python's `round(x)`: the nearest integer, a half going to the even neighbour. */
  function RoundHalfEven(x: real): (r: int)
    ensures -0.5 <= x - r as real <= 0.5
    ensures (x - r as real == 0.5 || r as real - x == 0.5) ==> r % 2 == 0
  {
    var f := x.Floor;
    var d := x - f as real;
    if d < 0.5 then f else if d > 0.5 then f + 1 else if f % 2 == 0 then f else f + 1
  }

  /** A whole amount is kept as it is. */
  lemma {:induction false} RoundWhole(n: int)
    ensures RoundHalfEven(n as real) == n
  {
    assert (n as real).Floor == n;
  }

  /** `total_due`: the sum of the dues that are positive. */
  function TotalDue(cands: seq<Candidate>): real
  {
    if cands == [] then 0.0
    else TotalDue(cands[..|cands| - 1]) + (if cands[|cands| - 1].due > 0.0 then cands[|cands| - 1].due else 0.0)
  }

  /** `remaining * (due / total_due)`: the charge's exact proportional part. */
  function Raw(remaining: int, due: real, total: real): real
    requires total > 0.0
  {
    remaining as real * (due / total)
  }

  /** The share of one charge before the leftover: the floor of its part and the fraction cut off. */
  function FloorShare(c: Candidate, remaining: int, total: real): Share
    requires total > 0.0
  {
    var raw := Raw(remaining, c.due, total);
    Share(c.chargeId, c.due, raw.Floor, raw - raw.Floor as real)
  }

  /** The first loop: one share per charge with something due, in charge order. */
  function FirstShares(cands: seq<Candidate>, remaining: int, total: real): seq<Share>
    requires total > 0.0
  {
    if cands == [] then []
    else
      var c := cands[|cands| - 1];
      FirstShares(cands[..|cands| - 1], remaining, total)
        + (if c.due <= 0.0 then [] else [FloorShare(c, remaining, total)])
  }

  /** `distributed`: the sum of the whole parts. */
  function Units(s: seq<Share>): int
  {
    if s == [] then 0 else Units(s[..|s| - 1]) + s[|s| - 1].units
  }

  lemma {:induction false} UnitsSum(s: seq<Share>)
    ensures Units(s) as real == SumOf(s, UnitsOf)
  {
    if s != [] {
      UnitsSum(s[..|s| - 1]);
    }
  }

  /** The whole parts handed out, and the shares, as the first loop accumulates them. */
  method FloorShares(cands: seq<Candidate>, remaining: int, total: real) returns (shares: seq<Share>, distributed: int)
    requires total > 0.0
    ensures shares == FirstShares(cands, remaining, total)
    ensures distributed == Units(shares)
  {
    shares, distributed := [], 0;
    var i := 0;
    while i < |cands|
      invariant 0 <= i <= |cands|
      invariant shares == FirstShares(cands[..i], remaining, total)
      invariant distributed == Units(shares)
    {
      assert cands[..i + 1][..i] == cands[..i];
      var c := cands[i];
      if c.due > 0.0 {
        var sh := FloorShare(c, remaining, total);
        assert (shares + [sh])[..|shares|] == shares;
        shares := shares + [sh];
        distributed := distributed + sh.units;
      } else {
        assert shares + [] == shares;
      }
      i := i + 1;
    }
    assert cands[..i] == cands;
  }

  /** A share as the first loop makes it: a charge with something due, a non-negative whole part and a fraction below 1. */
  predicate FirstShareOk(sh: Share, remaining: int, total: real)
  {
    sh.due > 0.0 && 0 <= sh.units && 0.0 <= sh.rem < 1.0
    && (remaining as real <= total ==> sh.units as real <= sh.due)
  }

  /** A floor share of a positive due out of a positive amount. */
  lemma {:induction false} FloorShareOk(c: Candidate, remaining: int, total: real)
    requires total > 0.0 && remaining > 0 && c.due > 0.0
    ensures FirstShareOk(FloorShare(c, remaining, total), remaining, total)
    ensures UnitsOf(FloorShare(c, remaining, total)) <= Raw(remaining, c.due, total)
  {
    var raw := Raw(remaining, c.due, total);
    assert c.due / total > 0.0;
    assert raw >= 0.0;
    if remaining as real <= total {
      assert raw <= c.due by {
        assert c.due / total * total == c.due;
        assert remaining as real * (c.due / total) <= total * (c.due / total);
      }
    }
  }

  /** Every share of the first loop is well formed. */
  lemma {:induction false} FirstSharesOk(cands: seq<Candidate>, remaining: int, total: real)
    requires total > 0.0 && remaining > 0
    ensures forall i :: 0 <= i < |FirstShares(cands, remaining, total)| ==>
              FirstShareOk(FirstShares(cands, remaining, total)[i], remaining, total)
  {
    if cands != [] {
      var init := cands[..|cands| - 1];
      var c := cands[|cands| - 1];
      FirstSharesOk(init, remaining, total);
      var s0 := FirstShares(init, remaining, total);
      var s := FirstShares(cands, remaining, total);
      if c.due > 0.0 {
        FloorShareOk(c, remaining, total);
        forall i | 0 <= i < |s| ensures FirstShareOk(s[i], remaining, total) {
          if i < |s0| {
            assert s[i] == s0[i];
          } else {
            assert s[i] == FloorShare(c, remaining, total);
          }
        }
      } else {
        assert s == s0;
      }
    }
  }

  /** Some candidate has the share's charge and due. */
  predicate FromCandidate(cands: seq<Candidate>, sh: Share)
  {
    exists k :: 0 <= k < |cands| && cands[k].chargeId == sh.chargeId && cands[k].due == sh.due
  }

  /** Every share of the first loop belongs to a candidate and carries its due. */
  lemma {:induction false} FirstSharesFrom(cands: seq<Candidate>, remaining: int, total: real)
    requires total > 0.0
    ensures forall i :: 0 <= i < |FirstShares(cands, remaining, total)| ==>
              FromCandidate(cands, FirstShares(cands, remaining, total)[i])
  {
    if cands != [] {
      var init := cands[..|cands| - 1];
      var c := cands[|cands| - 1];
      FirstSharesFrom(init, remaining, total);
      var s0 := FirstShares(init, remaining, total);
      var s := FirstShares(cands, remaining, total);
      forall i | 0 <= i < |s| ensures FromCandidate(cands, s[i]) {
        if i < |s0| {
          assert s[i] == s0[i];
          assert FromCandidate(init, s0[i]);
          var k :| 0 <= k < |init| && init[k].chargeId == s0[i].chargeId && init[k].due == s0[i].due;
          assert cands[k] == init[k];
        } else {
          assert s[i] == FloorShare(c, remaining, total);
          assert cands[|cands| - 1] == c;
        }
      }
    }
  }

  /** The dues of the shares add up to the total due. */
  lemma {:induction false} FirstSharesDue(cands: seq<Candidate>, remaining: int, total: real)
    requires total > 0.0
    ensures SumOf(FirstShares(cands, remaining, total), ShareDue) == TotalDue(cands)
  {
    if cands != [] {
      var init := cands[..|cands| - 1];
      var c := cands[|cands| - 1];
      FirstSharesDue(init, remaining, total);
      var s0 := FirstShares(init, remaining, total);
      if c.due > 0.0 {
        assert (s0 + [FloorShare(c, remaining, total)])[..|s0|] == s0;
      } else {
        assert s0 + [] == s0;
      }
    }
  }

  /** The exact part a share stands for: its whole part plus the fraction cut off. */
  function RawOf(sh: Share): real
  {
    sh.units as real + sh.rem
  }

  /** `sum(remaining * (due / total_due) for each charge with something due)`, in charge order. */
  function PartSum(cands: seq<Candidate>, remaining: int, total: real): real
    requires total > 0.0
  {
    if cands == [] then 0.0
    else PartSum(cands[..|cands| - 1], remaining, total)
         + (if cands[|cands| - 1].due > 0.0 then Raw(remaining, cands[|cands| - 1].due, total) else 0.0)
  }

  /** `r*((a+d)/t) == r*(a/t) + r*(d/t)`. */
  lemma {:induction false} DivideSum(r: real, a: real, d: real, t: real)
    requires t > 0.0
    ensures r * ((a + d) / t) == r * (a / t) + r * (d / t)
  {
    assert (a + d) / t == a / t + d / t;
  }

  /** The proportional parts add up to the amount's part of the total due. */
  lemma {:induction false} PartSumIs(cands: seq<Candidate>, remaining: int, total: real)
    requires total > 0.0
    ensures PartSum(cands, remaining, total) == remaining as real * (TotalDue(cands) / total)
  {
    if cands != [] {
      var init := cands[..|cands| - 1];
      var c := cands[|cands| - 1];
      PartSumIs(init, remaining, total);
      var d := if c.due > 0.0 then c.due else 0.0;
      DivideSum(remaining as real, TotalDue(init), d, total);
    }
  }

  /** Each share's whole part and fraction together are exactly its proportional part. */
  lemma {:induction false} FirstSharesRaw(cands: seq<Candidate>, remaining: int, total: real)
    requires total > 0.0
    ensures SumOf(FirstShares(cands, remaining, total), RawOf) == PartSum(cands, remaining, total)
  {
    if cands != [] {
      var init := cands[..|cands| - 1];
      var c := cands[|cands| - 1];
      FirstSharesRaw(init, remaining, total);
      var s0 := FirstShares(init, remaining, total);
      if c.due > 0.0 {
        var sh := FloorShare(c, remaining, total);
        assert RawOf(sh) == Raw(remaining, c.due, total);
        assert (s0 + [sh])[..|s0|] == s0;
      } else {
        assert s0 + [] == s0;
      }
    }
  }

  /** Each whole part is at most the exact part, so their sum is too. */
  lemma {:induction false} UnitsBelowRaw(s: seq<Share>)
    requires forall i :: 0 <= i < |s| ==> s[i].rem >= 0.0
    ensures SumOf(s, UnitsOf) <= SumOf(s, RawOf)
  {
    if s != [] {
      UnitsBelowRaw(s[..|s| - 1]);
    }
  }

  /** The whole parts never exceed the amount: `leftover >= 0` before it is clamped. */
  lemma {:induction false} FloorsWithinAmount(cands: seq<Candidate>, remaining: int)
    requires TotalDue(cands) > 0.0 && remaining > 0
    ensures SumOf(FirstShares(cands, remaining, TotalDue(cands)), UnitsOf) <= remaining as real
  {
    var total := TotalDue(cands);
    var s := FirstShares(cands, remaining, total);
    FirstSharesRaw(cands, remaining, total);
    PartSumIs(cands, remaining, total);
    TimesWhole(remaining as real, total);
    FirstSharesOk(cands, remaining, total);
    UnitsBelowRaw(s);
  }

  lemma TimesWhole(r: real, t: real)
    requires t > 0.0
    ensures r * (t / t) == r
  {
    assert t / t == 1.0;
  }

  /** `int(max(0.0, due - s_int))`: the whole units a charge can still take. */
  function Room(sh: Share): int
  {
    Max0(sh.due - sh.units as real).Floor
  }

  /** No share can take another whole unit. */
  predicate NoRoom(s: seq<Share>)
  {
    forall j :: 0 <= j < |s| ==> Room(s[j]) <= 0
  }

  /** `idx + 1 if idx + 1 < len(shares) else 0`. */
  function Next(idx: nat, n: nat): nat
  {
    if idx + 1 < n then idx + 1 else 0
  }

  /** The position `d` steps round the ring after `idx`. */
  function Ahead(idx: nat, d: nat, n: nat): nat
  {
    if idx + d < n then idx + d else idx + d - n
  }

  /** Steps from `idx`, starting at `d`, to the first share with room; `|s|` when there is none. */
  function RoomAhead(s: seq<Share>, idx: nat, d: nat): nat
    requires idx < |s|
    decreases |s| - d
  {
    if d >= |s| then |s|
    else if Room(s[Ahead(idx, d, |s|)]) > 0 then d
    else RoomAhead(s, idx, d + 1)
  }

  /** The loop's measure: how far the index is from a share with room. */
  function Distance(s: seq<Share>, idx: nat): nat
  {
    if idx < |s| then RoomAhead(s, idx, 0) else 0
  }

  lemma {:induction false} RoomAheadShift(s: seq<Share>, idx: nat, d: nat)
    requires idx < |s| && d < |s| && Room(s[idx]) <= 0
    ensures RoomAhead(s, idx, d + 1) == if RoomAhead(s, Next(idx, |s|), d) + 1 < |s| then RoomAhead(s, Next(idx, |s|), d) + 1 else |s|
    decreases |s| - d
  {
    var n := |s|;
    var next := Next(idx, n);
    if d + 1 >= n {
      assert Ahead(next, d, n) == idx;
    } else {
      assert Ahead(idx, d + 1, n) == Ahead(next, d, n);
      if Room(s[Ahead(idx, d + 1, n)]) <= 0 {
        RoomAheadShift(s, idx, d + 1);
      }
    }
  }

  lemma {:induction false} RoomAheadFinds(s: seq<Share>, idx: nat, d: nat, dj: nat)
    requires idx < |s| && d <= dj < |s| && Room(s[Ahead(idx, dj, |s|)]) > 0
    ensures RoomAhead(s, idx, d) <= dj
    decreases dj - d
  {
    if d < dj && Room(s[Ahead(idx, d, |s|)]) <= 0 {
      RoomAheadFinds(s, idx, d + 1, dj);
    }
  }

  /** Passing over a share without room brings the index one step closer to one with room. */
  lemma {:induction false} DistanceShrinks(s: seq<Share>, idx: nat)
    requires idx < |s| && Room(s[idx]) <= 0 && !NoRoom(s)
    ensures Distance(s, Next(idx, |s|)) < Distance(s, idx)
  {
    var n := |s|;
    var j :| 0 <= j < n && Room(s[j]) > 0;
    var dj := if j >= idx then j - idx else j + n - idx;
    assert Ahead(idx, dj, n) == j;
    RoomAheadFinds(s, idx, 0, dj);
    assert Ahead(idx, 0, n) == idx;
    RoomAheadShift(s, idx, 0);
  }

  /** The share at the same place after the leftover loop: only its whole part grew, and only within its due. */
  predicate Grown(before: Share, after: Share)
  {
    after == before.(units := after.units) && after.units >= before.units
    && (after.units > before.units ==> after.units as real <= after.due)
  }

  /**
   * The leftover loop so far: the shares kept their places and only grew,
   * every unit handed out left the leftover, and the leftover stayed
   * between 0 and where it started.
   */
  predicate Conserved(before: seq<Share>, leftover: int, after: seq<Share>, left: int)
  {
    |after| == |before|
    && (forall i :: 0 <= i < |after| ==> Grown(before[i], after[i]))
    && SumOf(after, UnitsOf) + left as real == SumOf(before, UnitsOf) + leftover as real
    && (leftover >= 0 ==> 0 <= left <= leftover)
  }

  /** The leftover loop once it has stopped: everything handed out, or no share can take another unit. */
  predicate LeftoverDone(before: seq<Share>, leftover: int, after: seq<Share>, left: int)
  {
    Conserved(before, leftover, after, left) && (left <= 0 || NoRoom(after))
  }

  /** One pass of the loop body: a unit to the share at `idx` if it has room, then the index moves round. */
  function Pass(s: seq<Share>, left: int, idx: nat): (r: (seq<Share>, int, nat))
    requires idx < |s|
  {
    var sh := s[idx];
    var s' := if Room(sh) > 0 then s[idx := sh.(units := sh.units + 1)] else s;
    var left' := if Room(sh) > 0 then left - 1 else left;
    (s', left', Next(idx, |s|))
  }

  /**
   * The leftover loop from position `idx`, with the exit test the comment
   * at its end asks for: stop once no share can take another whole unit.
   * It ends on every input; the loop as written does not (see
   * `HalfDuesNeverExitAsWritten`).
   */
  function Distribute(s: seq<Share>, left: int, idx: nat): (r: (seq<Share>, int))
    requires idx == 0 || idx < |s|
    decreases left, Distance(s, idx)
  {
    if left <= 0 || idx >= |s| then (s, left)
    else
      var p := Pass(s, left, idx);
      if NoRoom(p.0) then (p.0, p.1)
      else if Room(s[idx]) > 0 then Distribute(p.0, p.1, p.2)
      else
        DistanceShrinks(s, idx);
        Distribute(p.0, p.1, p.2)
  }

  /** A pass keeps what the loop conserves. */
  lemma {:induction false} PassConserves(s: seq<Share>, left: int, idx: nat)
    requires idx < |s| && left > 0
    ensures Conserved(s, left, Pass(s, left, idx).0, Pass(s, left, idx).1)
  {
    var sh := s[idx];
    if Room(sh) > 0 {
      SumOfUpdate(s, idx, sh.(units := sh.units + 1), UnitsOf);
      assert Max0(sh.due - sh.units as real) >= 1.0;
    }
  }

  lemma {:induction false} ConservedTrans(a: seq<Share>, la: int, b: seq<Share>, lb: int, c: seq<Share>, lc: int)
    requires Conserved(a, la, b, lb) && Conserved(b, lb, c, lc)
    ensures Conserved(a, la, c, lc)
  {
    forall i | 0 <= i < |c| ensures Grown(a[i], c[i]) {
      assert Grown(a[i], b[i]) && Grown(b[i], c[i]);
    }
  }

  /** The leftover loop stops in a state it conserves, for a reason. */
  lemma {:induction false} DistributeDone(s: seq<Share>, left: int, idx: nat)
    requires idx == 0 || idx < |s|
    ensures LeftoverDone(s, left, Distribute(s, left, idx).0, Distribute(s, left, idx).1)
    decreases left, Distance(s, idx)
  {
    if left <= 0 || idx >= |s| {
      assert forall i :: 0 <= i < |s| ==> Grown(s[i], s[i]);
    } else {
      var p := Pass(s, left, idx);
      PassConserves(s, left, idx);
      if !NoRoom(p.0) {
        if Room(s[idx]) <= 0 {
          DistanceShrinks(s, idx);
        }
        DistributeDone(p.0, p.1, p.2);
        var r := Distribute(s, left, idx);
        ConservedTrans(s, left, p.0, p.1, r.0, r.1);
      }
    }
  }

  /** The leftover loop as a loop over the shares, moving `idx` round-robin. */
  method DistributeLeftover(shares: seq<Share>, leftover: int) returns (s: seq<Share>, left: int)
    ensures (s, left) == Distribute(shares, leftover, 0)
    ensures LeftoverDone(shares, leftover, s, left)
  {
    s, left := shares, leftover;
    var idx: nat := 0;
    while left > 0 && idx < |s|
      invariant idx == 0 || idx < |s|
      invariant Distribute(s, left, idx) == Distribute(shares, leftover, 0)
      decreases left, Distance(s, idx)
    {
      ghost var pass := Pass(s, left, idx);
      var sh := s[idx];
      var maxAdd := Room(sh);
      if maxAdd > 0 {
        s := s[idx := sh.(units := sh.units + 1)];
        left := left - 1;
      }
      var prev := idx;
      idx := Next(idx, |s|);
      assert (s, left, idx) == pass;
      if NoRoom(s) {
        break;
      }
      if maxAdd <= 0 {
        DistanceShrinks(s, prev);
      }
    }
    DistributeDone(shares, leftover, 0);
  }

  /** The exit test as written: every charge's due is at most its share. */
  predicate AllCoveredAsWritten(s: seq<Share>)
  {
    forall j :: 0 <= j < |s| ==> s[j].due <= s[j].units as real
  }

  /** Two charges owing half a unit each. */
  function HalfDues(): seq<Candidate>
  {
    [Candidate(1, 0.5), Candidate(2, 0.5)]
  }

  /** The shares the first loop makes for `HalfDues` and an amount of 1. */
  function HalfShares(): seq<Share>
  {
    [Share(1, 0.5, 0, 0.5), Share(2, 0.5, 0, 0.5)]
  }

  lemma {:induction false} HalfDuesShares()
    ensures TotalDue(HalfDues()) == 1.0
    ensures FirstShares(HalfDues(), 1, 1.0) == HalfShares()
  {
    var cands := HalfDues();
    assert cands[..1] == [cands[0]];
    assert cands[..1][..0] == [];
    assert Raw(1, 0.5, 1.0) == 0.5;
    assert FirstShares(cands[..1], 1, 1.0) == [Share(1, 0.5, 0, 0.5)];
  }

  /** Equal fractions keep their order, and no whole unit has been handed out. */
  lemma {:induction false} HalfSharesSorted()
    ensures SortDesc(HalfShares(), RemOf) == HalfShares()
    ensures SumOf(HalfShares(), UnitsOf) == 0.0
  {
    var s := HalfShares();
    assert s[..1] == [s[0]];
    assert s[..1][..0] == [];
    assert SortDesc([s[0]], RemOf) == [s[0]];
    assert SumOf([s[0]], UnitsOf) == 0.0;
  }

  /** Neither share has a whole unit of room and neither due is covered. */
  lemma {:induction false} HalfSharesStuck()
    ensures NoRoom(HalfShares()) && !AllCoveredAsWritten(HalfShares())
    ensures Pass(HalfShares(), 1, 0) == (HalfShares(), 1, 1)
    ensures Pass(HalfShares(), 1, 1) == (HalfShares(), 1, 0)
  {
    var s := HalfShares();
    assert Max0(0.5) == 0.5;
    assert Room(s[0]) == 0 && Room(s[1]) == 0;
  }

  /**
   * Dues 0.5 and 0.5 with an amount of 1: both floors are 0 and one unit
   * is left, but neither charge has a whole unit of room and neither due
   * is covered, so two passes lead back to the same state with the loop
   * still running: the loop as written never ends. The exit test of
   * `DistributeLeftover` holds from the start.
   */
  lemma {:induction false} HalfDuesNeverExitAsWritten()
    ensures RoundHalfEven(1.0) == 1 && TotalDue(HalfDues()) == 1.0
    ensures var s := SortDesc(FirstShares(HalfDues(), 1, 1.0), RemOf);
            var leftover := 1 - SumOf(s, UnitsOf).Floor;
            var one := Pass(s, leftover, 0);
            var two := Pass(one.0, one.1, one.2);
            leftover > 0 && !AllCoveredAsWritten(s)
            && one.1 > 0 && !AllCoveredAsWritten(one.0)
            && two == (s, leftover, 0)
            && NoRoom(s)
  {
    RoundWhole(1);
    HalfDuesShares();
    HalfSharesSorted();
    HalfSharesStuck();
    assert (0.0).Floor == 0;
  }

  /** A due that is a whole number. */
  predicate Whole(x: real)
  {
    x == x.Floor as real
  }

  predicate WholeDues(s: seq<Share>)
  {
    forall i :: 0 <= i < |s| ==> Whole(s[i].due)
  }

  /** With whole dues, having room is exactly owing more than the share. */
  lemma {:induction false} RoomOfWhole(sh: Share)
    requires Whole(sh.due)
    ensures Room(sh) > 0 <==> sh.due > sh.units as real
  {
    var k := sh.due.Floor - sh.units;
    assert sh.due - sh.units as real == k as real;
    if k > 0 {
      assert Max0(k as real) == k as real;
    } else {
      assert Max0(k as real) == 0.0;
    }
    assert (k as real).Floor == k;
  }

  /**
   * With whole dues the two exit tests agree: no share has room for a
   * whole unit exactly when every due is covered. `HalfSharesStuck` shows
   * they part ways once a due is fractional.
   */
  lemma NoRoomIffCovered(s: seq<Share>)
    requires WholeDues(s)
    ensures NoRoom(s) <==> AllCoveredAsWritten(s)
  {
    forall j | 0 <= j < |s| ensures Room(s[j]) <= 0 <==> s[j].due <= s[j].units as real {
      RoomOfWhole(s[j]);
    }
  }

  /**
   * With whole dues, each first share within its due and the amount
   * within the total due, the leftover loop hands out all of it: the
   * final shares add up to the amount and none exceeds its due.
   */
  lemma {:induction false} ExactWithWholeDues(shares: seq<Share>, leftover: int, s: seq<Share>, left: int)
    requires WholeDues(shares) && leftover >= 0
    requires forall i :: 0 <= i < |shares| ==> shares[i].units as real <= shares[i].due
    requires SumOf(shares, UnitsOf) + leftover as real <= SumOf(shares, ShareDue)
    requires LeftoverDone(shares, leftover, s, left)
    ensures left == 0
    ensures forall i :: 0 <= i < |s| ==> s[i].units as real <= s[i].due
  {
    assert forall i :: 0 <= i < |s| ==> s[i].units as real <= s[i].due;
    if left > 0 {
      forall i | 0 <= i < |s| ensures UnitsOf(s[i]) == ShareDue(shares[i]) {
        RoomOfWhole(s[i]);
      }
      SumOfPointwise(s, shares, UnitsOf, ShareDue);
      assert false;
    }
  }

  function CandidateId(c: Candidate): int { c.chargeId }
  function ShareId(sh: Share): int { sh.chargeId }

  /** Distinct candidates give shares of distinct charges. */
  lemma {:induction false} FirstSharesDistinct(cands: seq<Candidate>, remaining: int, total: real)
    requires total > 0.0 && DistinctBy(cands, CandidateId)
    ensures DistinctBy(FirstShares(cands, remaining, total), ShareId)
  {
    if cands != [] {
      var init := cands[..|cands| - 1];
      var c := cands[|cands| - 1];
      assert DistinctBy(init, CandidateId) by {
        forall i, j | 0 <= i < j < |init| ensures init[i].chargeId != init[j].chargeId {
          assert init[i] == cands[i] && init[j] == cands[j];
        }
      }
      FirstSharesDistinct(init, remaining, total);
      FirstSharesFrom(init, remaining, total);
      var s0 := FirstShares(init, remaining, total);
      var s := FirstShares(cands, remaining, total);
      if c.due > 0.0 {
        forall i | 0 <= i < |s0| ensures s0[i].chargeId != c.chargeId {
          assert FromCandidate(init, s0[i]);
          var k :| 0 <= k < |init| && init[k].chargeId == s0[i].chargeId && init[k].due == s0[i].due;
          assert init[k] == cands[k];
        }
        forall i, j | 0 <= i < j < |s| ensures s[i].chargeId != s[j].chargeId {
          assert s[i] == s0[i];
          if j < |s0| {
            assert s[j] == s0[j];
          } else {
            assert s[j] == FloorShare(c, remaining, total);
          }
        }
      } else {
        assert s == s0;
      }
    }
  }

  /** Every candidate owes a whole amount. */
  predicate WholeCandidates(cands: seq<Candidate>)
  {
    forall i :: 0 <= i < |cands| ==> Whole(cands[i].due)
  }

  /** A share of the final split: from a candidate, with something due and a non-negative whole part. */
  predicate SplitShare(cands: seq<Candidate>, sh: Share)
  {
    FromCandidate(cands, sh) && sh.due > 0.0 && sh.units >= 0
  }

  /** `max(0, remaining - distributed)`. */
  function LeftoverOf(cands: seq<Candidate>, remaining: int): int
    requires TotalDue(cands) > 0.0
  {
    Max0Int(remaining - Units(FirstShares(cands, remaining, TotalDue(cands))))
  }

  /** `max(0, n)`. */
  function Max0Int(n: int): (r: int)
    ensures r >= 0 && (r == n || r == 0)
  {
    if n > 0 then n else 0
  }

  /** The first shares in descending order of their fractions. */
  function Sorted(cands: seq<Candidate>, remaining: int): seq<Share>
    requires TotalDue(cands) > 0.0
  {
    SortDesc(FirstShares(cands, remaining, TotalDue(cands)), RemOf)
  }

  /**
   * The integer split of `remaining` across the candidates, as the
   * automatic mode computes it: floors, the leftover clamped at 0, the
   * shares in descending order of their fractions, the leftover loop.
   */
  function SplitShares(cands: seq<Candidate>, remaining: int): seq<Share>
  {
    if TotalDue(cands) <= 0.0 || remaining <= 0 then []
    else Distribute(Sorted(cands, remaining), LeftoverOf(cands, remaining), 0).0
  }

  /** The split as the handler runs it, given the total due it accumulated. */
  method Split(cands: seq<Candidate>, total: real, remaining: int) returns (shares: seq<Share>)
    requires total == TotalDue(cands)
    ensures shares == SplitShares(cands, remaining)
  {
    if !(total > 0.0 && remaining > 0) {
      return [];
    }
    var first, distributed := FloorShares(cands, remaining, total);
    shares := SplitFirst(first, distributed, remaining);
    StagesOf(cands, total, remaining, first);
  }

  lemma StagesOf(cands: seq<Candidate>, total: real, remaining: int, first: seq<Share>)
    requires total == TotalDue(cands) && total > 0.0 && first == FirstShares(cands, remaining, total)
    ensures Sorted(cands, remaining) == SortDesc(first, RemOf)
    ensures LeftoverOf(cands, remaining) == Max0Int(remaining - Units(first))
  {
  }

  /** The leftover clamped at 0, the shares sorted by their fractions, and the leftover loop. */
  method SplitFirst(first: seq<Share>, distributed: int, remaining: int) returns (shares: seq<Share>)
    requires distributed == Units(first)
    ensures shares == Distribute(SortDesc(first, RemOf), Max0Int(remaining - Units(first)), 0).0
  {
    var leftover := Max0Int(remaining - distributed);
    var sorted := SortDesc(first, RemOf);
    var left;
    shares, left := DistributeLeftover(sorted, leftover);
    assert shares == Distribute(sorted, leftover, 0).0;
    assert sorted == SortDesc(first, RemOf);
    assert leftover == Max0Int(remaining - Units(first));
  }

  /** The leftover loop starts from the sorted floors and exactly the units they leave. */
  lemma {:induction false} SplitStages(cands: seq<Candidate>, remaining: int)
    requires TotalDue(cands) > 0.0 && remaining > 0
    ensures SumOf(Sorted(cands, remaining), UnitsOf) + LeftoverOf(cands, remaining) as real == remaining as real
    ensures LeftoverOf(cands, remaining) >= 0
    ensures LeftoverDone(Sorted(cands, remaining), LeftoverOf(cands, remaining),
                         SplitShares(cands, remaining), Distribute(Sorted(cands, remaining), LeftoverOf(cands, remaining), 0).1)
  {
    var first := FirstShares(cands, remaining, TotalDue(cands));
    FloorsWithinAmount(cands, remaining);
    UnitsSum(first);
    SumOfPermutation(first, Sorted(cands, remaining), UnitsOf);
    DistributeDone(Sorted(cands, remaining), LeftoverOf(cands, remaining), 0);
  }

  /** Nothing is split when nothing is due or the amount is not positive. */
  lemma {:induction false} SplitNothing(cands: seq<Candidate>, remaining: int)
    ensures SplitShares(cands, remaining) == [] <==> TotalDue(cands) <= 0.0 || remaining <= 0 || FirstShares(cands, remaining, TotalDue(cands)) == []
  {
    if TotalDue(cands) > 0.0 && remaining > 0 {
      SplitStages(cands, remaining);
    }
  }

  /** Every share belongs to a candidate, one per charge when the candidates are distinct charges. */
  lemma {:induction false} SplitFromCandidates(cands: seq<Candidate>, remaining: int)
    ensures forall i :: 0 <= i < |SplitShares(cands, remaining)| ==> SplitShare(cands, SplitShares(cands, remaining)[i])
    ensures DistinctBy(cands, CandidateId) ==> DistinctBy(SplitShares(cands, remaining), ShareId)
  {
    var total := TotalDue(cands);
    if total > 0.0 && remaining > 0 {
      SplitStages(cands, remaining);
      var first := FirstShares(cands, remaining, total);
      var shares := SplitShares(cands, remaining);
      FirstSplitShares(cands, remaining, total);
      SplitSharesFrom(cands, first, Sorted(cands, remaining), shares);
      if DistinctBy(cands, CandidateId) {
        SplitSharesDistinct(cands, total, remaining, first, Sorted(cands, remaining), shares);
      }
    }
  }

  /** At most the amount is handed out. */
  lemma {:induction false} SplitWithinAmount(cands: seq<Candidate>, remaining: int)
    ensures SumOf(SplitShares(cands, remaining), UnitsOf) <= Max0(remaining as real)
  {
    if TotalDue(cands) > 0.0 && remaining > 0 {
      SplitStages(cands, remaining);
    }
  }

  /** With whole dues and an amount within the total due, exactly the amount is handed out and no charge gets more than it owes. */
  lemma {:induction false} SplitExact(cands: seq<Candidate>, remaining: int)
    requires WholeCandidates(cands) && remaining as real <= TotalDue(cands)
    ensures SumOf(SplitShares(cands, remaining), UnitsOf) == Max0(remaining as real)
    ensures forall i :: 0 <= i < |SplitShares(cands, remaining)| ==>
              SplitShares(cands, remaining)[i].units as real <= SplitShares(cands, remaining)[i].due
  {
    var total := TotalDue(cands);
    if remaining > 0 {
      SplitStages(cands, remaining);
      var first := FirstShares(cands, remaining, total);
      SplitWholeDues(cands, total, remaining, first, Sorted(cands, remaining));
      ExactWithWholeDues(Sorted(cands, remaining), LeftoverOf(cands, remaining), SplitShares(cands, remaining),
                         Distribute(Sorted(cands, remaining), LeftoverOf(cands, remaining), 0).1);
    }
  }

  /** The first shares are shares of the split. */
  lemma {:induction false} FirstSplitShares(cands: seq<Candidate>, remaining: int, total: real)
    requires total > 0.0 && remaining > 0
    ensures forall i :: 0 <= i < |FirstShares(cands, remaining, total)| ==>
              SplitShare(cands, FirstShares(cands, remaining, total)[i])
  {
    FirstSharesOk(cands, remaining, total);
    FirstSharesFrom(cands, remaining, total);
  }

  /** Sorting and the leftover loop keep each share's charge and due. */
  lemma {:induction false} SplitSharesFrom(cands: seq<Candidate>, first: seq<Share>, sorted: seq<Share>, shares: seq<Share>)
    requires forall i :: 0 <= i < |first| ==> SplitShare(cands, first[i])
    requires multiset(first) == multiset(sorted)
    requires |shares| == |sorted| && forall i :: 0 <= i < |shares| ==> Grown(sorted[i], shares[i])
    ensures forall i :: 0 <= i < |shares| ==> SplitShare(cands, shares[i])
  {
    PermutationAll(first, sorted, sh => SplitShare(cands, sh));
    forall i | 0 <= i < |shares| ensures SplitShare(cands, shares[i]) {
      assert SplitShare(cands, sorted[i]);
      var k :| 0 <= k < |cands| && cands[k].chargeId == sorted[i].chargeId && cands[k].due == sorted[i].due;
      assert Grown(sorted[i], shares[i]);
    }
  }

  /** Distinct candidates give final shares of distinct charges. */
  lemma {:induction false} SplitSharesDistinct(cands: seq<Candidate>, total: real, remaining: int,
                                               first: seq<Share>, sorted: seq<Share>, shares: seq<Share>)
    requires total > 0.0 && DistinctBy(cands, CandidateId)
    requires first == FirstShares(cands, remaining, total) && sorted == SortDesc(first, RemOf)
    requires |shares| == |sorted| && forall i :: 0 <= i < |shares| ==> Grown(sorted[i], shares[i])
    ensures DistinctBy(shares, ShareId)
  {
    FirstSharesDistinct(cands, remaining, total);
    SortDescDistinct(first, RemOf, ShareId);
    forall i, j | 0 <= i < j < |shares| ensures shares[i].chargeId != shares[j].chargeId {
      assert Grown(sorted[i], shares[i]) && Grown(sorted[j], shares[j]);
    }
  }

  /** With whole dues and the amount within the total due, the sorted first shares meet what `ExactWithWholeDues` asks. */
  lemma {:induction false} SplitWholeDues(cands: seq<Candidate>, total: real, remaining: int,
                                          first: seq<Share>, sorted: seq<Share>)
    requires total == TotalDue(cands) && total > 0.0 && remaining > 0 && remaining as real <= total
    requires WholeCandidates(cands)
    requires first == FirstShares(cands, remaining, total) && sorted == SortDesc(first, RemOf)
    ensures WholeDues(sorted)
    ensures forall i :: 0 <= i < |sorted| ==> sorted[i].units as real <= sorted[i].due
    ensures SumOf(sorted, ShareDue) == total
  {
    FirstSharesOk(cands, remaining, total);
    FirstSharesFrom(cands, remaining, total);
    forall i | 0 <= i < |first| ensures Whole(first[i].due) && first[i].units as real <= first[i].due {
      assert FromCandidate(cands, first[i]);
      assert FirstShareOk(first[i], remaining, total);
    }
    PermutationAll(first, sorted, (sh: Share) => Whole(sh.due) && sh.units as real <= sh.due);
    FirstSharesDue(cands, remaining, total);
    SumOfPermutation(first, sorted, ShareDue);
  }

  function Amount(a: PaymentApplication): real { a.amount }
  function AppliedId(a: PaymentApplication): int { a.chargeId }

  /** `min(due, s_int)` for a positive share, unless that is not positive. */
  function ApplicationOf(paymentId: nat, sh: Share): (a: Option<PaymentApplication>)
  {
    if sh.units <= 0 then None
    else
      var amt := MinReal(sh.due, sh.units as real);
      if amt <= 0.0 then None else Some(PaymentApplication(paymentId, sh.chargeId, amt))
  }

  /** The applications the persisting loop adds, one per share at most, in share order. */
  function Applied(paymentId: nat, shares: seq<Share>): seq<PaymentApplication>
  {
    if shares == [] then []
    else
      var a := ApplicationOf(paymentId, shares[|shares| - 1]);
      Applied(paymentId, shares[..|shares| - 1]) + (if a.Some? then [a.value] else [])
  }

  /** Some share has the application's charge, and the amount is the smaller of its due and its whole part. */
  predicate AppliedFrom(shares: seq<Share>, a: PaymentApplication)
  {
    exists k :: 0 <= k < |shares| && shares[k].chargeId == a.chargeId
                && a.amount == MinReal(shares[k].due, shares[k].units as real)
  }

  /** Each application is positive, never above the charge's due, and comes from a share of that charge. */
  lemma {:induction false} AppliedBounded(paymentId: nat, shares: seq<Share>)
    ensures forall i :: 0 <= i < |Applied(paymentId, shares)| ==>
              Applied(paymentId, shares)[i].paymentId == paymentId
              && Applied(paymentId, shares)[i].amount > 0.0
              && AppliedFrom(shares, Applied(paymentId, shares)[i])
  {
    if shares != [] {
      var init := shares[..|shares| - 1];
      var sh := shares[|shares| - 1];
      AppliedBounded(paymentId, init);
      var a0 := Applied(paymentId, init);
      var a := Applied(paymentId, shares);
      forall i | 0 <= i < |a|
        ensures a[i].paymentId == paymentId && a[i].amount > 0.0 && AppliedFrom(shares, a[i])
      {
        if i < |a0| {
          assert a[i] == a0[i];
          var k :| 0 <= k < |init| && init[k].chargeId == a0[i].chargeId
                   && a0[i].amount == MinReal(init[k].due, init[k].units as real);
          assert shares[k] == init[k];
        } else {
          assert a[i] == ApplicationOf(paymentId, sh).value;
          assert shares[|shares| - 1] == sh;
        }
      }
    }
  }

  /** Shares of distinct charges give at most one application per charge. */
  lemma {:induction false} AppliedDistinct(paymentId: nat, shares: seq<Share>)
    requires DistinctBy(shares, ShareId)
    ensures DistinctBy(Applied(paymentId, shares), AppliedId)
  {
    if shares != [] {
      var init := shares[..|shares| - 1];
      var sh := shares[|shares| - 1];
      assert DistinctBy(init, ShareId) by {
        forall i, j | 0 <= i < j < |init| ensures init[i].chargeId != init[j].chargeId {
          assert init[i] == shares[i] && init[j] == shares[j];
        }
      }
      AppliedDistinct(paymentId, init);
      AppliedBounded(paymentId, init);
      var a0 := Applied(paymentId, init);
      var a := Applied(paymentId, shares);
      if ApplicationOf(paymentId, sh).Some? {
        forall i | 0 <= i < |a0| ensures a0[i].chargeId != sh.chargeId {
          var k :| 0 <= k < |init| && init[k].chargeId == a0[i].chargeId
                   && a0[i].amount == MinReal(init[k].due, init[k].units as real);
          assert shares[k] == init[k];
        }
        forall i, j | 0 <= i < j < |a| ensures a[i].chargeId != a[j].chargeId {
          assert a[i] == a0[i];
          if j < |a0| {
            assert a[j] == a0[j];
          }
        }
      } else {
        assert a == a0;
      }
    }
  }

  /** With every whole part within its due, the applications add up to the shares. */
  lemma {:induction false} AppliedSum(paymentId: nat, shares: seq<Share>)
    requires forall i :: 0 <= i < |shares| ==> 0 <= shares[i].units && shares[i].units as real <= shares[i].due
    ensures SumOf(Applied(paymentId, shares), Amount) == SumOf(shares, UnitsOf)
  {
    if shares != [] {
      var init := shares[..|shares| - 1];
      var sh := shares[|shares| - 1];
      AppliedSum(paymentId, init);
      var a0 := Applied(paymentId, init);
      var o := ApplicationOf(paymentId, sh);
      if o.Some? {
        assert (a0 + [o.value])[..|a0|] == a0;
      } else {
        assert a0 + [] == a0;
      }
    }
  }

  /** With no negative whole part, the applications add up to at most the shares. */
  lemma {:induction false} AppliedWithin(paymentId: nat, shares: seq<Share>)
    requires forall i :: 0 <= i < |shares| ==> 0 <= shares[i].units
    ensures SumOf(Applied(paymentId, shares), Amount) <= SumOf(shares, UnitsOf)
  {
    if shares != [] {
      var init := shares[..|shares| - 1];
      var sh := shares[|shares| - 1];
      AppliedWithin(paymentId, init);
      var a0 := Applied(paymentId, init);
      var o := ApplicationOf(paymentId, sh);
      if o.Some? {
        assert (a0 + [o.value])[..|a0|] == a0;
      } else {
        assert a0 + [] == a0;
      }
    }
  }
}
