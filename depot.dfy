/**
 * The depot: coins held, keyed by the price in cents per coin that was paid
 * for them. Python keeps it in a dict; here it is a map, so a copy never
 * aliases the caller's value.
 */
module Depots {
  import opened Money

  type Depot = map<int, real>

  /** Every tier holds a positive quantity. */
  predicate QuantitiesPositive(d: Depot) {
    forall p :: p in d ==> d[p] > 0.0
  }

  /** Python's `any` over a list of prices: some price is not zero. */
  predicate AnyNonZero(s: seq<int>) {
    exists i :: 0 <= i < |s| && s[i] != 0
  }

  /** `any(depot)`: some tier has a price other than zero. */
  predicate HasNonZeroKey(d: Depot) {
    exists p :: p in d && p != 0
  }

  predicate StrictlyIncreasing(s: seq<int>) {
    forall i, j :: 0 <= i < j < |s| ==> s[i] < s[j]
  }

  /** The set of elements of a sequence. */
  function Elements(s: seq<int>): set<int> {
    set k | k in s
  }

  lemma SetHasElement(s: set<int>)
    requires s != {}
    ensures exists k :: k in s
  {
    if forall k :: k !in s {
      assert false;
    }
  }

  lemma MapHasKey(d: Depot)
    requires d != map[]
    ensures exists p :: p in d
  {
    if forall p :: p !in d {
      assert false;
    }
  }

  lemma {:induction false} MinExists(s: set<int>)
    requires s != {}
    ensures exists m :: m in s && forall k :: k in s ==> m <= k
    decreases s
  {
    SetHasElement(s);
    var x :| x in s;
    var r := s - {x};
    assert forall k :: k in s ==> k == x || k in r;
    if r == {} {
      assert forall k :: k in s ==> x <= k;
    } else {
      MinExists(r);
      var m :| m in r && forall k :: k in r ==> m <= k;
      var least := if m < x then m else x;
      assert least in s;
      assert forall k :: k in s ==> least <= k;
    }
  }

  lemma {:induction false} MaxExists(s: set<int>)
    requires s != {}
    ensures exists m :: m in s && forall k :: k in s ==> k <= m
    decreases s
  {
    SetHasElement(s);
    var x :| x in s;
    var r := s - {x};
    assert forall k :: k in s ==> k == x || k in r;
    if r == {} {
      assert forall k :: k in s ==> k <= x;
    } else {
      MaxExists(r);
      var m :| m in r && forall k :: k in r ==> k <= m;
      var greatest := if m > x then m else x;
      assert greatest in s;
      assert forall k :: k in s ==> k <= greatest;
    }
  }

  lemma PrependIncreasing(m: int, rest: seq<int>)
    requires StrictlyIncreasing(rest)
    requires forall i :: 0 <= i < |rest| ==> m < rest[i]
    ensures StrictlyIncreasing([m] + rest)
  {
    var r := [m] + rest;
    forall i, j | 0 <= i < j < |r|
      ensures r[i] < r[j]
    {
      if i > 0 {
        assert r[i] == rest[i - 1] && r[j] == rest[j - 1];
      } else {
        assert r[j] == rest[j - 1];
      }
    }
  }

  /** The first element of a strictly increasing sequence is its least. */
  lemma IncreasingHead(r: seq<int>, k: int)
    requires StrictlyIncreasing(r) && k in Elements(r)
    ensures r[0] <= k
  {
    var j :| 0 <= j < |r| && r[j] == k;
    assert j == 0 || r[0] < r[j];
  }

  /** Dropping the head of a strictly increasing sequence drops exactly that element. */
  lemma IncreasingTail(r: seq<int>)
    requires StrictlyIncreasing(r) && r != []
    ensures StrictlyIncreasing(r[1..])
    ensures Elements(r[1..]) == Elements(r) - {r[0]}
  {
    forall k | k in r[1..]
      ensures k != r[0]
    {
      var j :| 0 <= j < |r[1..]| && r[1..][j] == k;
      assert r[j + 1] == k && r[0] < r[j + 1];
    }
    assert r == [r[0]] + r[1..];
    assert Elements(r) == {r[0]} + Elements(r[1..]);
  }

  lemma HeadInElements(s: seq<int>)
    ensures s != [] ==> s[0] in Elements(s)
  {
  }

  /** Two strictly increasing sequences with the same elements are equal. */
  lemma {:induction false} IncreasingUnique(a: seq<int>, b: seq<int>)
    requires StrictlyIncreasing(a) && StrictlyIncreasing(b)
    requires Elements(a) == Elements(b)
    ensures a == b
    decreases |a|
  {
    if a == [] {
      HeadInElements(b);
    } else {
      assert a[0] in Elements(a);
      assert b != [];
      assert b[0] in Elements(b);
      IncreasingHead(a, b[0]);
      IncreasingHead(b, a[0]);
      IncreasingTail(a);
      IncreasingTail(b);
      IncreasingUnique(a[1..], b[1..]);
      assert a == [a[0]] + a[1..] && b == [b[0]] + b[1..];
    }
  }

  /** Every finite set has a strictly increasing enumeration. */
  lemma {:induction false} SortedWitness(s: set<int>) returns (r: seq<int>)
    ensures StrictlyIncreasing(r) && Elements(r) == s
    decreases |s|
  {
    if s == {} {
      r := [];
    } else {
      MinExists(s);
      var m :| m in s && forall k :: k in s ==> m <= k;
      var rest := SortedWitness(s - {m});
      assert forall i :: 0 <= i < |rest| ==> rest[i] in Elements(rest);
      PrependIncreasing(m, rest);
      assert Elements([m] + rest) == {m} + Elements(rest);
      r := [m] + rest;
    }
  }

  lemma SortedExists(s: set<int>)
    ensures exists r :: StrictlyIncreasing(r) && Elements(r) == s
  {
    var r := SortedWitness(s);
  }

  /** The elements of `s` in ascending order. */
  ghost function SortedKeysOf(s: set<int>): (r: seq<int>)
    ensures Elements(r) == s
  {
    SortedExists(s);
    var r :| StrictlyIncreasing(r) && Elements(r) == s;
    r
  }

  lemma SortedKeysOfIncreasing(s: set<int>)
    ensures StrictlyIncreasing(SortedKeysOf(s))
  {
  }

  /** A strictly increasing enumeration of `s` is the sorted one. */
  lemma SortedKeysOfUnique(s: set<int>, r: seq<int>)
    requires StrictlyIncreasing(r) && Elements(r) == s
    ensures r == SortedKeysOf(s)
  {
    SortedKeysOfIncreasing(s);
    IncreasingUnique(r, SortedKeysOf(s));
  }

  /** `s` back to front. */
  function Reversed(s: seq<int>): (r: seq<int>)
    ensures |r| == |s| && forall i :: 0 <= i < |s| ==> r[i] == s[|s| - 1 - i]
  {
    if s == [] then [] else Reversed(s[1..]) + [s[0]]
  }

  /** The prices held, cheapest first. */
  ghost function SortedKeys(d: Depot): seq<int> {
    SortedKeysOf(d.Keys)
  }

  /** The total number of coins held. */
  ghost function Total(d: Depot): real
    decreases |d|
  {
    if d == map[] then 0.0
    else
      MapHasKey(d);
      var p :| p in d;
      assert (d - {p}).Keys == d.Keys - {p};
      d[p] + Total(d - {p})
  }

  /** Any tier may be taken out of the total first. */
  lemma {:induction false} TotalRemove(d: Depot, p: int)
    requires p in d
    ensures Total(d) == d[p] + Total(d - {p})
    decreases |d|
  {
    var q :| q in d && Total(d) == d[q] + Total(d - {q});
    if q != p {
      assert (d - {q}).Keys == d.Keys - {q};
      TotalRemove(d - {q}, p);
      TotalRemove(d - {p}, q);
      assert d - {q} - {p} == d - {p} - {q};
    }
  }

  /** Every element of `ps` is a tier of `d`. */
  predicate InDepot(d: Depot, ps: seq<int>) {
    forall i :: 0 <= i < |ps| ==> ps[i] in d
  }

  lemma SortedKeysInDepot(d: Depot)
    ensures InDepot(d, SortedKeys(d))
  {
    var asc := SortedKeys(d);
    assert forall i :: 0 <= i < |asc| ==> asc[i] in Elements(asc);
  }

  /** Quantities of the tiers `ks`. */
  function SumOf(d: Depot, ks: seq<int>): real
    requires InDepot(d, ks)
  {
    if ks == [] then 0.0 else SumOf(d, ks[..|ks| - 1]) + d[ks[|ks| - 1]]
  }

  /** What the tiers `ks` cost when they were bought. */
  function CostOf(d: Depot, ks: seq<int>): real
    requires InDepot(d, ks)
  {
    if ks == [] then 0.0 else CostOf(d, ks[..|ks| - 1]) + Value(ks[|ks| - 1], d[ks[|ks| - 1]])
  }

  /** What the whole depot cost when it was bought. */
  ghost function Spent(d: Depot): real {
    SortedKeysInDepot(d);
    CostOf(d, SortedKeys(d))
  }

  /** Removing distinct tiers lowers the total by exactly their quantities. */
  lemma {:induction false} TotalRemoveAll(d: Depot, ks: seq<int>)
    requires InDepot(d, ks) && StrictlyIncreasing(ks)
    ensures Total(d) == SumOf(d, ks) + Total(d - Elements(ks))
    decreases |ks|
  {
    if ks == [] {
      assert d - Elements(ks) == d;
    } else {
      var m := |ks| - 1;
      var init, k := ks[..m], ks[m];
      TotalRemoveAll(d, init);
      var rest := d - Elements(init);
      assert k !in Elements(init) by {
        forall j | 0 <= j < |init|
          ensures init[j] != k
        {
          assert ks[j] < ks[m];
        }
      }
      TotalRemove(rest, k);
      assert Elements(ks) == Elements(init) + {k} by {
        assert ks == init + [k];
      }
      assert rest - {k} == d - Elements(ks);
    }
  }

  /** With positive quantities the total is positive exactly when coins are held. */
  lemma {:induction false} TotalPositive(d: Depot)
    requires QuantitiesPositive(d)
    ensures Total(d) >= 0.0
    ensures d != map[] <==> Total(d) > 0.0
    decreases |d|
  {
    if d != map[] {
      MapHasKey(d);
      var p :| p in d;
      TotalRemove(d, p);
      assert (d - {p}).Keys == d.Keys - {p};
      TotalPositive(d - {p});
    }
  }

  /** The total is the sum over the tiers in ascending order. */
  lemma TotalIsSumOfSorted(d: Depot)
    ensures InDepot(d, SortedKeys(d))
    ensures Total(d) == SumOf(d, SortedKeys(d))
  {
    SortedKeysInDepot(d);
    SortedKeysOfIncreasing(d.Keys);
    TotalRemoveAll(d, SortedKeys(d));
    assert d - Elements(SortedKeys(d)) == map[];
  }

  /** A strictly decreasing enumeration of `s` is the sorted one back to front. */
  lemma DescendingIsReversedSorted(ps: seq<int>, s: set<int>)
    requires forall i, j :: 0 <= i < j < |ps| ==> ps[i] > ps[j]
    requires Elements(ps) == s
    ensures ps == Reversed(SortedKeysOf(s))
  {
    var r := Reversed(ps);
    assert Elements(r) == s by {
      forall k | k in s
        ensures k in r
      {
        var i :| 0 <= i < |ps| && ps[i] == k;
        assert r[|ps| - 1 - i] == k;
      }
    }
    SortedKeysOfUnique(s, r);
    var back := Reversed(r);
    forall i | 0 <= i < |ps|
      ensures back[i] == ps[i]
    {
      assert back[i] == r[|r| - 1 - i];
    }
  }

  /** `ps` lists, dearest first, the elements of `keys` that lie above all of `rest`. */
  predicate DescendingSplit(ps: seq<int>, rest: set<int>, keys: set<int>) {
    && (forall i, j :: 0 <= i < j < |ps| ==> ps[i] > ps[j])
    && (forall i, k :: 0 <= i < |ps| && k in rest ==> ps[i] > k)
    && Elements(ps) + rest == keys
  }

  /** Moving the greatest remaining element to the end of the list keeps the split. */
  lemma DescendingSplitStep(ps: seq<int>, rest: set<int>, keys: set<int>, m: int)
    requires DescendingSplit(ps, rest, keys)
    requires m in rest && forall k :: k in rest ==> k <= m
    ensures DescendingSplit(ps + [m], rest - {m}, keys)
  {
    var ps' := ps + [m];
    assert Elements(ps') == Elements(ps) + {m};
    forall i, k | 0 <= i < |ps'| && k in rest - {m}
      ensures ps'[i] > k
    {
      if i < |ps| {
        assert ps'[i] == ps[i];
      }
    }
  }

  /** `any` sees the same prices in either order: `prices` is `asc[n..]` back to front. */
  lemma AnyNonZeroReversedSuffix(prices: seq<int>, asc: seq<int>, n: nat)
    requires n <= |asc| && |prices| == |asc| - n
    requires forall i :: 0 <= i < |prices| ==> prices[i] == asc[|asc| - 1 - i]
    ensures AnyNonZero(prices) == AnyNonZero(asc[n..])
  {
    if AnyNonZero(prices) {
      var i :| 0 <= i < |prices| && prices[i] != 0;
      assert asc[n..][|asc| - 1 - i - n] == asc[|asc| - 1 - i];
    }
    if AnyNonZero(asc[n..]) {
      var j :| 0 <= j < |asc| - n && asc[n..][j] != 0;
      assert prices[|asc| - 1 - n - j] == asc[n + j];
    }
  }

  /** The sorted enumeration of `s` has a non-zero element exactly when `s` has. */
  lemma AnyNonZeroSorted(s: set<int>)
    ensures AnyNonZero(SortedKeysOf(s)) <==> exists k :: k in s && k != 0
  {
    var r := SortedKeysOf(s);
    if exists k :: k in s && k != 0 {
      var k :| k in s && k != 0;
      assert k in Elements(r);
      var i :| 0 <= i < |r| && r[i] == k;
      assert AnyNonZero(r);
    }
    if AnyNonZero(r) {
      var i :| 0 <= i < |r| && r[i] != 0;
      assert r[i] in Elements(r);
    }
  }

  /**
   * Nothing left for `any` among the distinct ascending prices from
   * position `n`: none remain, or the one remaining is zero.
   */
  predicate Exhausted(asc: seq<int>, n: nat) {
    n >= |asc| || (n == |asc| - 1 && asc[n] == 0)
  }

  /** On strictly increasing prices, `any` over a suffix is the test above. */
  lemma AnyNonZeroSuffix(asc: seq<int>, n: nat)
    requires StrictlyIncreasing(asc) && n <= |asc|
    ensures AnyNonZero(asc[n..]) <==> !Exhausted(asc, n)
  {
    var rest := asc[n..];
    if |rest| >= 2 {
      assert rest[0] < rest[1];
      assert rest[0] != 0 || rest[1] != 0;
    } else if |rest| == 1 {
      assert rest[0] == asc[n];
    }
  }

  /** `any(prices)` in the loop of `consider_sell`, where `prices` is the rest of the depot's prices back to front. */
  lemma AnyRemaining(d: Depot, prices: seq<int>, n: nat)
    requires n <= |SortedKeys(d)| && |prices| == |SortedKeys(d)| - n
    requires forall i :: 0 <= i < |prices| ==> prices[i] == SortedKeys(d)[|SortedKeys(d)| - 1 - i]
    ensures AnyNonZero(prices) <==> !Exhausted(SortedKeys(d), n)
  {
    SortedKeysOfIncreasing(d.Keys);
    AnyNonZeroReversedSuffix(prices, SortedKeys(d), n);
    AnyNonZeroSuffix(SortedKeys(d), n);
  }
}
