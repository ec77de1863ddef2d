/**
 * Small vocabulary shared by every module: nullable values, the Python
 * truthiness defaults the handlers lean on (`x or 0`, `s or "kg"`), sums
 * of quantities and a stable descending sort.
 */
module Common {

  datatype Option<T> = None | Some(value: T)

  /** `x or 0` on a nullable number: None and 0 both read as 0. */
  function OrZero(o: Option<real>): real
  {
    if o.Some? then o.value else 0.0
  }

  /** `x if x is not None else d`. */
  function OrElse(o: Option<real>, d: real): real
  {
    if o.Some? then o.value else d
  }

  /** `max(0, x)`. */
  function Max0(x: real): real
  {
    if x < 0.0 then 0.0 else x
  }

  function MinReal(a: real, b: real): real
  {
    if a <= b then a else b
  }

  /**
   * `s or d` on a nullable text column. The model writes a missing text
   * as "", which Python treats exactly like None in an `or`.
   */
  function OrText(s: string, d: string): string
  {
    if s == "" then d else s
  }

  /**
   * A numeric field of a JSON body as `float(...)` sees it: the key is
   * missing, its value makes `float` raise (null, or text that is not a
   * number), or it reads as a number.
   */
  datatype NumField = Absent | Unparsable | Number(value: real)

  /** `float(data.get(key, d))`: the number, the default when missing, None when `float` raises. */
  function NumOr(f: NumField, d: real): Option<real>
  {
    match f
    case Absent => Some(d)
    case Unparsable => None
    case Number(v) => Some(v)
  }

  /** Python's `x or y` on two nullable numbers: `x` unless it is None or 0. */
  function OrNumber(x: Option<real>, y: Option<real>): Option<real>
  {
    if x.Some? && x.value != 0.0 then x else y
  }

  /** One more element of a sequence's prefix. */
  lemma PrefixSnoc<T>(s: seq<T>, i: nat)
    requires i < |s|
    ensures s[..i + 1] == s[..i] + [s[i]]
  {
  }

  /** The prefix as long as the sequence is the sequence. */
  lemma PrefixAll<T>(s: seq<T>)
    ensures s[..|s|] == s
  {
  }

  /** Left-to-right sum, the shape of an accumulating `for` loop. */
  function Sum(xs: seq<real>): real
  {
    if xs == [] then 0.0 else Sum(xs[..|xs| - 1]) + xs[|xs| - 1]
  }

  lemma {:induction false} SumAppend(xs: seq<real>, ys: seq<real>)
    ensures Sum(xs + ys) == Sum(xs) + Sum(ys)
  {
    if ys == [] {
      assert xs + ys == xs;
    } else {
      var zs := ys[..|ys| - 1];
      assert (xs + ys)[..|xs + ys| - 1] == xs + zs;
      SumAppend(xs, zs);
    }
  }

  lemma {:induction false} SumNonNegative(xs: seq<real>)
    requires forall i :: 0 <= i < |xs| ==> xs[i] >= 0.0
    ensures Sum(xs) >= 0.0
  {
    if xs != [] {
      SumNonNegative(xs[..|xs| - 1]);
    }
  }

  /** Every term below its bound gives a sum below the bound's sum. */
  lemma {:induction false} SumMonotone(xs: seq<real>, ys: seq<real>)
    requires |xs| == |ys|
    requires forall i :: 0 <= i < |xs| ==> xs[i] <= ys[i]
    ensures Sum(xs) <= Sum(ys)
  {
    if xs != [] {
      SumMonotone(xs[..|xs| - 1], ys[..|ys| - 1]);
    }
  }

  /**
   * Insert `x` after every element whose key is at least key(x). Elements
   * with equal keys therefore keep their original relative order.
   */
  function InsertDesc<T>(x: T, s: seq<T>, key: T -> real): (r: seq<T>)
    ensures multiset(r) == multiset(s) + multiset{x}
    ensures |r| == |s| + 1
    ensures r[0] == x || (s != [] && r[0] == s[0])
  {
    if s == [] then [x]
    else if key(x) > key(s[0]) then [x] + s
    else
      assert s == [s[0]] + s[1..];
      [s[0]] + InsertDesc(x, s[1..], key)
  }

  predicate SortedDesc<T>(s: seq<T>, key: T -> real)
  {
    forall i, j :: 0 <= i < j < |s| ==> key(s[i]) >= key(s[j])
  }

  lemma {:induction false} InsertDescSorted<T>(x: T, s: seq<T>, key: T -> real)
    requires SortedDesc(s, key)
    ensures SortedDesc(InsertDesc(x, s, key), key)
  {
    if s != [] && key(x) <= key(s[0]) {
      InsertDescSorted(x, s[1..], key);
    }
  }

  /**
   * Python's `sorted(s, key=..., reverse=True)`: a stable sort, largest key
   * first. Built by inserting each element, in order, into the sorted
   * prefix.
   */
  function SortDesc<T>(s: seq<T>, key: T -> real): (r: seq<T>)
    ensures multiset(r) == multiset(s)
    ensures |r| == |s|
    ensures SortedDesc(r, key)
  {
    if s == [] then []
    else
      var init := s[..|s| - 1];
      assert s == init + [s[|s| - 1]];
      InsertDescSorted(s[|s| - 1], SortDesc(init, key), key);
      InsertDesc(s[|s| - 1], SortDesc(init, key), key)
  }

  /** The elements of `s` whose key is `v`, in their order in `s`. */
  function WithKey<T>(s: seq<T>, key: T -> real, v: real): (r: seq<T>)
    ensures |r| <= |s|
  {
    if s == [] then [] else Keep(s[0], key, v) + WithKey(s[1..], key, v)
  }

  /** `[x]` when its key is `v`, else nothing. */
  function Keep<T>(x: T, key: T -> real, v: real): seq<T>
  {
    if key(x) == v then [x] else []
  }

  lemma {:induction false} WithKeyAppend<T>(a: seq<T>, b: seq<T>, key: T -> real, v: real)
    ensures WithKey(a + b, key, v) == WithKey(a, key, v) + WithKey(b, key, v)
  {
    if a == [] {
      assert a + b == b;
    } else {
      assert (a + b)[0] == a[0];
      assert (a + b)[1..] == a[1..] + b;
      WithKeyAppend(a[1..], b, key, v);
      calc {
        WithKey(a + b, key, v);
        Keep(a[0], key, v) + WithKey(a[1..] + b, key, v);
        Keep(a[0], key, v) + (WithKey(a[1..], key, v) + WithKey(b, key, v));
        (Keep(a[0], key, v) + WithKey(a[1..], key, v)) + WithKey(b, key, v);
      }
    }
  }

  /** A sorted sequence whose first key is below `v` holds nothing with key `v`. */
  lemma {:induction false} WithKeyBelow<T>(s: seq<T>, key: T -> real, v: real)
    requires SortedDesc(s, key)
    requires s != [] ==> key(s[0]) < v
    ensures WithKey(s, key, v) == []
  {
    if s != [] {
      var t := s[1..];
      assert SortedDesc(t, key) by {
        forall i, j | 0 <= i < j < |t| ensures key(t[i]) >= key(t[j]) {
          assert t[i] == s[i + 1] && t[j] == s[j + 1];
        }
      }
      assert t != [] ==> key(t[0]) < v by {
        if t != [] {
          assert t[0] == s[1];
        }
      }
      WithKeyBelow(t, key, v);
    }
  }

  /** Inserting `x` puts it after every element of equal key. */
  lemma {:induction false} InsertDescWithKey<T>(x: T, s: seq<T>, key: T -> real, v: real)
    requires SortedDesc(s, key)
    ensures WithKey(InsertDesc(x, s, key), key, v) == WithKey(s, key, v) + Keep(x, key, v)
  {
    var r := InsertDesc(x, s, key);
    if s == [] {
      assert r == [x];
      assert r[1..] == [];
    } else if key(x) > key(s[0]) {
      assert r == [x] + s;
      assert r[0] == x && r[1..] == s;
      if key(x) == v {
        WithKeyBelow(s, key, v);
      }
    } else {
      var t := s[1..];
      var r' := InsertDesc(x, t, key);
      assert r == [s[0]] + r';
      assert r[0] == s[0] && r[1..] == r';
      assert SortedDesc(t, key) by {
        forall i, j | 0 <= i < j < |t| ensures key(t[i]) >= key(t[j]) {
          assert t[i] == s[i + 1] && t[j] == s[j + 1];
        }
      }
      InsertDescWithKey(x, t, key, v);
      assert WithKey(r, key, v) == Keep(s[0], key, v) + (WithKey(t, key, v) + Keep(x, key, v));
    }
  }

  /**
   * `SortDesc` is stable: the elements sharing any one key come out in
   * the order they went in.
   */
  lemma {:induction false} SortDescStable<T>(s: seq<T>, key: T -> real, v: real)
    ensures WithKey(SortDesc(s, key), key, v) == WithKey(s, key, v)
  {
    if s != [] {
      var init := s[..|s| - 1];
      assert s == init + [s[|s| - 1]];
      SortDescStable(init, key, v);
      InsertDescWithKey(s[|s| - 1], SortDesc(init, key), key, v);
      WithKeyAppend(init, [s[|s| - 1]], key, v);
      assert WithKey([s[|s| - 1]], key, v) == Keep(s[|s| - 1], key, v) by {
        assert [s[|s| - 1]][1..] == [];
      }
    }
  }
  /** `sum(f(x) for x in s)`, left to right. */
  function SumOf<T>(s: seq<T>, f: T -> real): real
  {
    if s == [] then 0.0 else SumOf(s[..|s| - 1], f) + f(s[|s| - 1])
  }

  lemma {:induction false} SumOfAppend<T>(xs: seq<T>, ys: seq<T>, f: T -> real)
    ensures SumOf(xs + ys, f) == SumOf(xs, f) + SumOf(ys, f)
    decreases |ys|
  {
    if ys == [] {
      assert xs + ys == xs;
    } else {
      var zs := ys[..|ys| - 1];
      assert (xs + ys)[..|xs + ys| - 1] == xs + zs;
      SumOfAppend(xs, zs, f);
    }
  }

  /** Two sequences whose terms agree one by one have the same sum. */
  lemma {:induction false} SumOfPointwise<T, U>(a: seq<T>, b: seq<U>, f: T -> real, g: U -> real)
    requires |a| == |b|
    requires forall i :: 0 <= i < |a| ==> f(a[i]) == g(b[i])
    ensures SumOf(a, f) == SumOf(b, g)
  {
    if a != [] {
      SumOfPointwise(a[..|a| - 1], b[..|b| - 1], f, g);
    }
  }

  /** Replacing one term changes the sum by the difference. */
  lemma {:induction false} SumOfUpdate<T>(s: seq<T>, i: nat, x: T, f: T -> real)
    requires i < |s|
    ensures SumOf(s[i := x], f) == SumOf(s, f) - f(s[i]) + f(x)
  {
    assert s == s[..i] + ([s[i]] + s[i + 1..]);
    assert s[i := x] == s[..i] + ([x] + s[i + 1..]);
    SumOfAppend(s[..i], [s[i]] + s[i + 1..], f);
    SumOfAppend(s[..i], [x] + s[i + 1..], f);
    SumOfAppend([s[i]], s[i + 1..], f);
    SumOfAppend([x], s[i + 1..], f);
    assert [s[i]][..0] == [] && [x][..0] == [];
  }

  /** Taking one term out of the middle takes it out of the sum. */
  lemma {:induction false} SumOfRemove<T>(b: seq<T>, j: nat, f: T -> real)
    requires j < |b|
    ensures SumOf(b, f) == SumOf(b[..j] + b[j + 1..], f) + f(b[j])
  {
    var left, right := b[..j], b[j + 1..];
    assert b == left + ([b[j]] + right);
    SumOfAppend(left, [b[j]] + right, f);
    SumOfAppend([b[j]], right, f);
    SumOfAppend(left, right, f);
    assert [b[j]][..0] == [];
  }

  lemma {:induction false} MultisetCancel<T>(p: multiset<T>, q: multiset<T>, x: T)
    requires p + multiset{x} == q + multiset{x}
    ensures p == q
  {
    forall y ensures p[y] == q[y] {
      assert (p + multiset{x})[y] == (q + multiset{x})[y];
    }
  }

  /** Reordering the terms does not change the sum. */
  lemma {:induction false} SumOfPermutation<T>(a: seq<T>, b: seq<T>, f: T -> real)
    requires multiset(a) == multiset(b)
    ensures SumOf(a, f) == SumOf(b, f)
    decreases |a|
  {
    if a == [] {
      assert |b| == |multiset(b)| == 0;
    } else {
      var x := a[|a| - 1];
      var a' := a[..|a| - 1];
      assert a == a' + [x];
      assert x in multiset(b);
      var j :| 0 <= j < |b| && b[j] == x;
      var b' := b[..j] + b[j + 1..];
      assert b == b[..j] + [x] + b[j + 1..];
      MultisetCancel(multiset(a'), multiset(b'), x);
      SumOfPermutation(a', b', f);
      SumOfRemove(b, j, f);
    }
  }

  /** Every element of `b` is an element of `a`, so a property of all of `a` holds of all of `b`. */
  lemma {:induction false} PermutationAll<T>(a: seq<T>, b: seq<T>, p: T -> bool)
    requires multiset(a) == multiset(b)
    requires forall i :: 0 <= i < |a| ==> p(a[i])
    ensures forall i :: 0 <= i < |b| ==> p(b[i])
  {
    forall i | 0 <= i < |b| ensures p(b[i]) {
      assert b[i] in multiset(b);
      assert b[i] in a;
    }
  }

  /** No two elements share a key. */
  predicate DistinctBy<T>(s: seq<T>, id: T -> int)
  {
    forall i, j :: 0 <= i < j < |s| ==> id(s[i]) != id(s[j])
  }

  /** Inserting keeps every id away from `v` when all of them were. */
  lemma {:induction false} InsertDescAvoids<T>(x: T, s: seq<T>, key: T -> real, id: T -> int, v: int)
    requires id(x) != v && forall k :: 0 <= k < |s| ==> id(s[k]) != v
    ensures forall k :: 0 <= k < |InsertDesc(x, s, key)| ==> id(InsertDesc(x, s, key)[k]) != v
  {
    var r := InsertDesc(x, s, key);
    if s == [] {
      assert r == [x];
    } else if key(x) > key(s[0]) {
      assert r == [x] + s;
      forall k | 0 <= k < |r| ensures id(r[k]) != v {
        if k > 0 {
          assert r[k] == s[k - 1];
        }
      }
    } else {
      var t := InsertDesc(x, s[1..], key);
      forall k | 0 <= k < |s[1..]| ensures id(s[1..][k]) != v {
        assert s[1..][k] == s[k + 1];
      }
      InsertDescAvoids(x, s[1..], key, id, v);
      assert r == [s[0]] + t;
      forall k | 0 <= k < |r| ensures id(r[k]) != v {
        if k > 0 {
          assert r[k] == t[k - 1];
        }
      }
    }
  }

  lemma {:induction false} InsertDescDistinct<T>(x: T, s: seq<T>, key: T -> real, id: T -> int)
    requires DistinctBy(s, id) && forall k :: 0 <= k < |s| ==> id(s[k]) != id(x)
    ensures DistinctBy(InsertDesc(x, s, key), id)
  {
    if s != [] && key(x) <= key(s[0]) {
      var t := InsertDesc(x, s[1..], key);
      InsertDescDistinct(x, s[1..], key, id);
      var r := InsertDesc(x, s, key);
      assert r == [s[0]] + t;
      forall k | 0 <= k < |s[1..]| ensures id(s[1..][k]) != id(s[0]) {
        assert s[1..][k] == s[k + 1];
      }
      InsertDescAvoids(x, s[1..], key, id, id(s[0]));
      forall i, j | 0 <= i < j < |r| ensures id(r[i]) != id(r[j]) {
        if i > 0 {
          assert r[i] == t[i - 1] && r[j] == t[j - 1];
        } else {
          assert r[j] == t[j - 1];
        }
      }
    }
  }

  /** Sorting keeps keys apart. */
  lemma {:induction false} SortDescDistinct<T>(s: seq<T>, key: T -> real, id: T -> int)
    requires DistinctBy(s, id)
    ensures DistinctBy(SortDesc(s, key), id)
  {
    if s != [] {
      var init := s[..|s| - 1];
      var x := s[|s| - 1];
      SortDescDistinct(init, key, id);
      var t := SortDesc(init, key);
      forall k | 0 <= k < |t| ensures id(t[k]) != id(x) {
        assert t[k] in multiset(init);
        var m :| 0 <= m < |init| && init[m] == t[k];
        assert s[m] == t[k];
      }
      InsertDescDistinct(x, t, key, id);
    }
  }

  /** No integer occurs twice. */
  predicate Distinct(ks: seq<int>)
  {
    forall i, j :: 0 <= i < j < |ks| ==> ks[i] != ks[j]
  }

  /**
   * The distinct keys of `s` in order of first appearance: the key order
   * of a dictionary filled by walking `s`.
   */
  function KeysOf<T>(s: seq<T>, key: T -> int): seq<int>
  {
    if s == [] then []
    else
      var ks := KeysOf(s[..|s| - 1], key);
      if key(s[|s| - 1]) in ks then ks else ks + [key(s[|s| - 1])]
  }

  /** Every key occurs once, and exactly the keys of the elements occur. */
  lemma {:induction false} KeysOfExact<T>(s: seq<T>, key: T -> int)
    ensures Distinct(KeysOf(s, key))
    ensures forall k :: k in KeysOf(s, key) <==> exists i :: 0 <= i < |s| && key(s[i]) == k
  {
    if s != [] {
      var init := s[..|s| - 1];
      KeysOfExact(init, key);
      forall k ensures k in KeysOf(s, key) <==> exists i :: 0 <= i < |s| && key(s[i]) == k {
        if exists i :: 0 <= i < |init| && key(init[i]) == k {
          var i :| 0 <= i < |init| && key(init[i]) == k;
          assert key(s[i]) == k;
        }
        if exists i :: 0 <= i < |s| && key(s[i]) == k {
          var i :| 0 <= i < |s| && key(s[i]) == k;
          if i < |init| {
            assert key(init[i]) == k;
          }
        }
      }
    }
  }

  /** `sum(f(x) for x in s if key(x) == k)`. */
  function SumFor<T>(s: seq<T>, key: T -> int, k: int, f: T -> real): real
  {
    if s == [] then 0.0
    else SumFor(s[..|s| - 1], key, k, f) + (if key(s[|s| - 1]) == k then f(s[|s| - 1]) else 0.0)
  }

  /** A key no element has sums to nothing. */
  lemma {:induction false} SumForAbsent<T>(s: seq<T>, key: T -> int, k: int, f: T -> real)
    requires forall i :: 0 <= i < |s| ==> key(s[i]) != k
    ensures SumFor(s, key, k, f) == 0.0
  {
    if s != [] {
      SumForAbsent(s[..|s| - 1], key, k, f);
    }
  }

  /** The per-key sums, one for each of `ks`. */
  function Totals<T>(s: seq<T>, key: T -> int, ks: seq<int>, f: T -> real): (r: seq<real>)
    ensures |r| == |ks|
  {
    if ks == [] then [] else Totals(s, key, ks[..|ks| - 1], f) + [SumFor(s, key, ks[|ks| - 1], f)]
  }

  /** One more element adds its term to the sum of its key, if that key is listed. */
  lemma {:induction false} TotalsStep<T>(s: seq<T>, x: T, key: T -> int, ks: seq<int>, f: T -> real)
    requires Distinct(ks)
    ensures Sum(Totals(s + [x], key, ks, f)) == Sum(Totals(s, key, ks, f)) + (if key(x) in ks then f(x) else 0.0)
  {
    if ks != [] {
      var init := ks[..|ks| - 1];
      assert Distinct(init) by {
        forall i, j | 0 <= i < j < |init| ensures init[i] != init[j] {
          assert init[i] == ks[i] && init[j] == ks[j];
        }
      }
      TotalsStep(s, x, key, init, f);
      assert (s + [x])[..|s|] == s;
      assert key(x) in ks <==> key(x) in init || key(x) == ks[|ks| - 1];
      assert ks[|ks| - 1] !in init;
    }
  }

  /** Grouping by key and adding the groups' sums gives the sum of everything. */
  lemma {:induction false} GroupSum<T>(s: seq<T>, key: T -> int, f: T -> real)
    ensures Sum(Totals(s, key, KeysOf(s, key), f)) == SumOf(s, f)
  {
    if s != [] {
      var init := s[..|s| - 1];
      var x := s[|s| - 1];
      assert s == init + [x];
      var ks := KeysOf(init, key);
      GroupSum(init, key, f);
      KeysOfExact(init, key);
      TotalsStep(init, x, key, ks, f);
      if key(x) !in ks {
        SumForAbsent(init, key, key(x), f);
        assert Totals(s, key, ks + [key(x)], f) == Totals(s, key, ks, f) + [SumFor(s, key, key(x), f)] by {
          assert (ks + [key(x)])[..|ks|] == ks;
        }
        SumAppend(Totals(s, key, ks, f), [SumFor(s, key, key(x), f)]);
        assert Sum([SumFor(s, key, key(x), f)]) == SumFor(s, key, key(x), f);
      }
    }
  }

  /** A sum over `xs` equals the sum of a list holding each term. */
  lemma {:induction false} SumOfIsSum<T>(xs: seq<T>, f: T -> real, ys: seq<real>)
    requires |xs| == |ys|
    requires forall i :: 0 <= i < |xs| ==> f(xs[i]) == ys[i]
    ensures SumOf(xs, f) == Sum(ys)
  {
    if xs != [] {
      SumOfIsSum(xs[..|xs| - 1], f, ys[..|ys| - 1]);
      assert ys == ys[..|ys| - 1] + [ys[|ys| - 1]];
      SumAppend(ys[..|ys| - 1], [ys[|ys| - 1]]);
    }
  }

  lemma {:induction false} SumForNonNegative<T>(s: seq<T>, key: T -> int, k: int, f: T -> real)
    requires forall i :: 0 <= i < |s| ==> f(s[i]) >= 0.0
    ensures SumFor(s, key, k, f) >= 0.0
  {
    if s != [] {
      SumForNonNegative(s[..|s| - 1], key, k, f);
    }
  }

  /**
   * The dictionary `d[key(x)] = d.get(key(x), 0) + f(x)` filled by walking
   * `s`.
   */
  function Tally<T>(s: seq<T>, key: T -> int, f: T -> real): map<int, real>
  {
    if s == [] then map[]
    else
      var m := Tally(s[..|s| - 1], key, f);
      var k := key(s[|s| - 1]);
      m[k := (if k in m then m[k] else 0.0) + f(s[|s| - 1])]
  }

  /** The entry for `k` raised by `v`, starting from 0 when absent. */
  function TallyAdd(m: map<int, real>, k: int, v: real): (m': map<int, real>)
    ensures m'.Keys == m.Keys + {k}
  {
    m[k := (if k in m then m[k] else 0.0) + v]
  }

  /** Tallying one element more adds its value to its key's entry. */
  lemma TallyPrefix<T>(s: seq<T>, i: nat, key: T -> int, f: T -> real)
    requires i < |s|
    ensures Tally(s[..i + 1], key, f) == TallyAdd(Tally(s[..i], key, f), key(s[i]), f(s[i]))
  {
    assert s[..i + 1][..i] == s[..i];
  }

  /** The dictionary has an entry for each key that occurs, and that entry is the key's sum. */
  lemma {:induction false} TallyExact<T>(s: seq<T>, key: T -> int, f: T -> real)
    ensures forall k :: k in Tally(s, key, f) <==> k in KeysOf(s, key)
    ensures forall k :: k in Tally(s, key, f) ==> Tally(s, key, f)[k] == SumFor(s, key, k, f)
  {
    if s != [] {
      var init := s[..|s| - 1];
      var k := key(s[|s| - 1]);
      TallyExact(init, key, f);
      KeysOfExact(init, key);
      if k !in KeysOf(init, key) {
        SumForAbsent(init, key, k, f);
      }
    }
  }

  /** The values of `m` at `ks`, in that order. */
  function ValuesAt(m: map<int, real>, ks: seq<int>): (r: seq<real>)
    requires forall i :: 0 <= i < |ks| ==> ks[i] in m
    ensures |r| == |ks|
    ensures forall i :: 0 <= i < |ks| ==> r[i] == m[ks[i]]
  {
    if ks == [] then [] else ValuesAt(m, ks[..|ks| - 1]) + [m[ks[|ks| - 1]]]
  }

  /** Each entry of `Totals` is the sum for its key. */
  lemma {:induction false} TotalsAt<T>(s: seq<T>, key: T -> int, ks: seq<int>, f: T -> real)
    ensures forall i :: 0 <= i < |ks| ==> Totals(s, key, ks, f)[i] == SumFor(s, key, ks[i], f)
  {
    if ks != [] {
      TotalsAt(s, key, ks[..|ks| - 1], f);
    }
  }

  /** The dictionary's values, taken in its key order, add up to the sum over everything. */
  lemma {:induction false} TallyAddsUp<T>(s: seq<T>, key: T -> int, f: T -> real)
    ensures forall i :: 0 <= i < |KeysOf(s, key)| ==> KeysOf(s, key)[i] in Tally(s, key, f)
    ensures Sum(ValuesAt(Tally(s, key, f), KeysOf(s, key))) == SumOf(s, f)
  {
    TallyExact(s, key, f);
    var ks := KeysOf(s, key);
    forall i | 0 <= i < |ks| ensures ks[i] in Tally(s, key, f) {
      var k := ks[i];
      assert k in KeysOf(s, key);
    }
    assert ValuesAt(Tally(s, key, f), ks) == Totals(s, key, ks, f) by {
      TotalsAt(s, key, ks, f);
    }
    GroupSum(s, key, f);
  }
}
