/**
 * The statistics the dashboard derives from the list of subscriptions:
 * the active and expired counts, the active spend, and the per-category
 * spend that feeds the bar chart.
 */
module DashboardStats {
  import opened Records

  /** subs.filter(s => s.status === status), keeping list order. */
  function WithStatus(subs: seq<Sub>, status: string): (r: seq<Sub>)
    ensures |r| <= |subs|
    ensures forall x :: x in r <==> x in subs && x.status == status
  {
    if subs == [] then []
    else
      var last := subs[|subs| - 1];
      assert subs == subs[..|subs| - 1] + [last];
      WithStatus(subs[..|subs| - 1], status) + (if last.status == status then [last] else [])
  }

  /** The filter keeps each matching record as many times as the list holds it, and no other record. */
  lemma {:induction false} WithStatusCounts(subs: seq<Sub>, status: string)
    ensures forall x :: multiset(WithStatus(subs, status))[x]
                        == if x.status == status then multiset(subs)[x] else 0
  {
    if subs != [] {
      var prefix, last := subs[..|subs| - 1], subs[|subs| - 1];
      WithStatusCounts(prefix, status);
      assert subs == prefix + [last];
    }
  }

  /** The positions of the list that hold a record with the given status. */
  ghost function PositionsWith(subs: seq<Sub>, status: string): set<int>
  {
    set i | 0 <= i < |subs| && subs[i].status == status
  }

  lemma PositionsAppend(prefix: seq<Sub>, last: Sub, status: string)
    ensures PositionsWith(prefix + [last], status)
            == PositionsWith(prefix, status) + (if last.status == status then {|prefix|} else {})
  {
    var subs := prefix + [last];
    forall i | i in PositionsWith(subs, status)
      ensures i in PositionsWith(prefix, status) + (if last.status == status then {|prefix|} else {})
    {
      if i < |prefix| { assert prefix[i] == subs[i]; }
    }
    forall i | i in PositionsWith(prefix, status) ensures i in PositionsWith(subs, status) {
      assert prefix[i] == subs[i];
    }
  }

  /** The filter is exactly as long as the number of positions whose status matches. */
  lemma {:induction false} WithStatusLength(subs: seq<Sub>, status: string)
    ensures |WithStatus(subs, status)| == |PositionsWith(subs, status)|
  {
    if subs != [] {
      var prefix, last := subs[..|subs| - 1], subs[|subs| - 1];
      WithStatusLength(prefix, status);
      assert subs == prefix + [last];
      PositionsAppend(prefix, last, status);
      assert |prefix| !in PositionsWith(prefix, status);
    }
  }

  /** The "Active Subscriptions" card: the number of records whose status is "Active". */
  function ActiveCount(subs: seq<Sub>): (n: nat)
    ensures n == |PositionsWith(subs, ACTIVE)|
  {
    WithStatusLength(subs, ACTIVE);
    |WithStatus(subs, ACTIVE)|
  }

  /** The "Expired Subscriptions" card: the number of records whose status is "Expired". */
  function ExpiredCount(subs: seq<Sub>): (n: nat)
    ensures n == |PositionsWith(subs, EXPIRED)|
  {
    WithStatusLength(subs, EXPIRED);
    |WithStatus(subs, EXPIRED)|
  }

  /** reduce((sum, s) => sum + Number(s.price), 0): a left fold over the list. */
  function SumPrices(subs: seq<Sub>): int
  {
    if subs == [] then 0 else SumPrices(subs[..|subs| - 1]) + subs[|subs| - 1].price
  }

  /** The price of every record with the given status, added up over the whole list. */
  function PriceSumWithStatus(subs: seq<Sub>, status: string): int
  {
    if subs == [] then 0
    else
      var last := subs[|subs| - 1];
      PriceSumWithStatus(subs[..|subs| - 1], status) + (if last.status == status then last.price else 0)
  }

  /** Filtering first and then adding up gives the sum over the matching records. */
  lemma {:induction false} FilteredSum(subs: seq<Sub>, status: string)
    ensures SumPrices(WithStatus(subs, status)) == PriceSumWithStatus(subs, status)
  {
    if subs != [] {
      var prefix, last := subs[..|subs| - 1], subs[|subs| - 1];
      FilteredSum(prefix, status);
      if last.status == status {
        SumPricesAppend(WithStatus(prefix, status), last);
      } else {
        assert WithStatus(subs, status) == WithStatus(prefix, status);
      }
    }
  }

  /** The "Monthly Spend" card: the prices of the active subscriptions added up, whatever their billing. */
  function Spend(subs: seq<Sub>): (r: int)
    ensures r == PriceSumWithStatus(subs, ACTIVE)
  {
    FilteredSum(subs, ACTIVE);
    SumPrices(WithStatus(subs, ACTIVE))
  }

  ghost predicate AllActiveOrExpired(subs: seq<Sub>)
  {
    forall i :: 0 <= i < |subs| ==> subs[i].status == ACTIVE || subs[i].status == EXPIRED
  }

  lemma AllActiveOrExpiredSplit(prefix: seq<Sub>, last: Sub)
    ensures AllActiveOrExpired(prefix + [last])
            <==> AllActiveOrExpired(prefix) && (last.status == ACTIVE || last.status == EXPIRED)
  {
    var subs := prefix + [last];
    if AllActiveOrExpired(subs) {
      forall i | 0 <= i < |prefix| ensures prefix[i].status == ACTIVE || prefix[i].status == EXPIRED {
        assert prefix[i] == subs[i];
      }
      assert subs[|prefix|] == last;
    }
  }

  lemma {:induction false} FilterLengthsBound(subs: seq<Sub>)
    ensures |WithStatus(subs, ACTIVE)| + |WithStatus(subs, EXPIRED)| <= |subs|
    ensures |WithStatus(subs, ACTIVE)| + |WithStatus(subs, EXPIRED)| == |subs| <==> AllActiveOrExpired(subs)
  {
    if subs != [] {
      var prefix, last := subs[..|subs| - 1], subs[|subs| - 1];
      FilterLengthsBound(prefix);
      assert subs == prefix + [last];
      AllActiveOrExpiredSplit(prefix, last);
      var a, e := |WithStatus(prefix, ACTIVE)|, |WithStatus(prefix, EXPIRED)|;
      assert |WithStatus(subs, ACTIVE)| == a + (if last.status == ACTIVE then 1 else 0);
      assert |WithStatus(subs, EXPIRED)| == e + (if last.status == EXPIRED then 1 else 0);
    }
  }

  /**
   * Only "Active" and "Expired" are counted, so the two counts never exceed
   * the list, and they fill it exactly when every status is one of the two.
   */
  lemma StatusCountsBound(subs: seq<Sub>)
    ensures ActiveCount(subs) + ExpiredCount(subs) <= |subs|
    ensures ActiveCount(subs) + ExpiredCount(subs) == |subs|
            <==> forall i :: 0 <= i < |subs| ==> subs[i].status == ACTIVE || subs[i].status == EXPIRED
  {
    FilterLengthsBound(subs);
  }

  lemma {:induction false} SumPricesNonNegative(subs: seq<Sub>)
    requires forall x :: x in subs ==> x.price >= 0
    ensures SumPrices(subs) >= 0
  {
    if subs != [] {
      assert forall x :: x in subs[..|subs| - 1] ==> x in subs;
      SumPricesNonNegative(subs[..|subs| - 1]);
    }
  }

  /** With non-negative prices the spend is non-negative. */
  lemma SpendNonNegative(subs: seq<Sub>)
    requires forall i :: 0 <= i < |subs| ==> subs[i].price >= 0
    ensures Spend(subs) >= 0
  {
    SumPricesNonNegative(WithStatus(subs, ACTIVE));
  }

  /** Without an active subscription (in particular for an empty list) the spend is 0. */
  lemma SpendWithoutActive(subs: seq<Sub>)
    requires forall i :: 0 <= i < |subs| ==> subs[i].status != ACTIVE
    ensures Spend(subs) == 0 && ActiveCount(subs) == 0
  {
  }

  /**
   * The object that the forEach at the chart effect builds: its keys in
   * insertion order (Object.keys) and the amount stored under each key.
   */
  datatype CategoryMap = CategoryMap(keys: seq<string>, amount: map<string, int>)

  /** Keys are listed once each, and exactly the keys of the object are listed. */
  ghost predicate WellFormed(m: CategoryMap)
  {
    (forall i, j :: 0 <= i < j < |m.keys| ==> m.keys[i] != m.keys[j]) &&
    (forall c :: c in m.amount <==> c in m.keys)
  }

  /** categoryMap[category] = (categoryMap[category] || 0) + price */
  function AddSpend(m: CategoryMap, category: string, price: int): (r: CategoryMap)
    requires WellFormed(m)
    ensures WellFormed(r)
    ensures category in r.amount
    ensures r.amount[category] == (if category in m.amount then m.amount[category] else 0) + price
    ensures forall c :: c != category ==> (c in r.amount <==> c in m.amount)
    ensures forall c :: c != category && c in m.amount ==> r.amount[c] == m.amount[c]
  {
    var previous := if category in m.amount then m.amount[category] else 0;
    CategoryMap(
      if category in m.amount then m.keys else m.keys + [category],
      m.amount[category := previous + price])
  }

  /** The category object after the forEach has visited every subscription in order. */
  function Categorize(subs: seq<Sub>): (r: CategoryMap)
    ensures WellFormed(r)
  {
    if subs == [] then CategoryMap([], map[])
    else
      var before := Categorize(subs[..|subs| - 1]);
      var s := subs[|subs| - 1];
      if s.status == ACTIVE then AddSpend(before, s.category, s.price) else before
  }

  /** The forEach loop that fills categoryMap, one subscription at a time. */
  method BuildCategoryMap(subs: seq<Sub>) returns (keys: seq<string>, amount: map<string, int>)
    ensures CategoryMap(keys, amount) == Categorize(subs)
  {
    keys, amount := [], map[];
    for i := 0 to |subs|
      invariant CategoryMap(keys, amount) == Categorize(subs[..i])
    {
      assert subs[..i + 1][..i] == subs[..i];
      var s := subs[i];
      if s.status == ACTIVE {
        var previous := if s.category in amount then amount[s.category] else 0;
        if s.category !in amount {
          keys := keys + [s.category];
        }
        amount := amount[s.category := previous + s.price];
      }
    }
    assert subs[..|subs|] == subs;
  }

  /** The sum of the object's values, taken in key order (Object.values). */
  function Total(keys: seq<string>, amount: map<string, int>): int
    requires forall i :: 0 <= i < |keys| ==> keys[i] in amount
  {
    if keys == [] then 0 else Total(keys[..|keys| - 1], amount) + amount[keys[|keys| - 1]]
  }

  lemma {:induction false} TotalIgnoresOtherKeys(keys: seq<string>, amount: map<string, int>, c: string, v: int)
    requires forall i :: 0 <= i < |keys| ==> keys[i] in amount
    requires c !in keys
    ensures Total(keys, amount[c := v]) == Total(keys, amount)
  {
    if keys != [] {
      TotalIgnoresOtherKeys(keys[..|keys| - 1], amount, c, v);
    }
  }

  lemma {:induction false} TotalAfterIncrease(keys: seq<string>, amount: map<string, int>, c: string, p: int)
    requires forall i :: 0 <= i < |keys| ==> keys[i] in amount
    requires forall i, j :: 0 <= i < j < |keys| ==> keys[i] != keys[j]
    requires c in keys && c in amount
    ensures Total(keys, amount[c := amount[c] + p]) == Total(keys, amount) + p
  {
    var prefix, last := keys[..|keys| - 1], keys[|keys| - 1];
    if last == c {
      assert c !in prefix;
      TotalIgnoresOtherKeys(prefix, amount, c, amount[c] + p);
    } else {
      assert c in prefix by {
        var k :| 0 <= k < |keys| && keys[k] == c;
        assert prefix[k] == c;
      }
      TotalAfterIncrease(prefix, amount, c, p);
    }
  }

  lemma {:induction false} WithStatusAppend(subs: seq<Sub>, s: Sub, status: string)
    ensures WithStatus(subs + [s], status)
            == WithStatus(subs, status) + (if s.status == status then [s] else [])
  {
    assert (subs + [s])[..|subs|] == subs;
  }

  lemma SumPricesAppend(subs: seq<Sub>, s: Sub)
    ensures SumPrices(subs + [s]) == SumPrices(subs) + s.price
  {
    assert (subs + [s])[..|subs|] == subs;
  }

  /** The keys of the category object are exactly the categories of active subscriptions. */
  lemma {:induction false} CategorizeKeys(subs: seq<Sub>)
    ensures forall c :: c in Categorize(subs).amount
                        <==> exists i :: 0 <= i < |subs| && subs[i].status == ACTIVE && subs[i].category == c
  {
    if subs != [] {
      var prefix, s := subs[..|subs| - 1], subs[|subs| - 1];
      CategorizeKeys(prefix);
      forall c
        ensures c in Categorize(subs).amount
                <==> exists i :: 0 <= i < |subs| && subs[i].status == ACTIVE && subs[i].category == c
      {
        if c in Categorize(subs).amount && !(s.status == ACTIVE && s.category == c) {
          var i :| 0 <= i < |prefix| && prefix[i].status == ACTIVE && prefix[i].category == c;
          assert subs[i] == prefix[i];
        }
        if exists i :: 0 <= i < |subs| && subs[i].status == ACTIVE && subs[i].category == c {
          var i :| 0 <= i < |subs| && subs[i].status == ACTIVE && subs[i].category == c;
          if i < |prefix| { assert prefix[i] == subs[i]; }
        }
      }
    }
  }

  lemma {:induction false} TotalAfterNewKey(keys: seq<string>, amount: map<string, int>, c: string, price: int)
    requires forall i :: 0 <= i < |keys| ==> keys[i] in amount
    requires c !in keys
    ensures forall i :: 0 <= i < |keys + [c]| ==> (keys + [c])[i] in amount[c := price]
    ensures Total(keys + [c], amount[c := price]) == Total(keys, amount) + price
  {
    var updated := amount[c := price];
    TotalIgnoresOtherKeys(keys, amount, c, price);
    assert (keys + [c])[..|keys|] == keys;
  }

  /** Adding a price to the object adds it to the sum of its values. */
  lemma {:induction false} TotalAfterAdd(m: CategoryMap, category: string, price: int)
    requires WellFormed(m)
    ensures Total(AddSpend(m, category, price).keys, AddSpend(m, category, price).amount)
            == Total(m.keys, m.amount) + price
  {
    if category in m.amount {
      TotalAfterIncrease(m.keys, m.amount, category, price);
    } else {
      TotalAfterNewKey(m.keys, m.amount, category, price);
    }
  }

  /** The values of the category object add up to the spend: no amount is lost or counted twice. */
  lemma {:induction false} CategoryTotalIsSpend(subs: seq<Sub>)
    ensures Total(Categorize(subs).keys, Categorize(subs).amount) == Spend(subs)
  {
    if subs != [] {
      var prefix, s := subs[..|subs| - 1], subs[|subs| - 1];
      assert subs == prefix + [s];
      CategoryTotalIsSpend(prefix);
      WithStatusAppend(prefix, s, ACTIVE);
      if s.status == ACTIVE {
        SumPricesAppend(WithStatus(prefix, ACTIVE), s);
        TotalAfterAdd(Categorize(prefix), s.category, s.price);
      } else {
        assert WithStatus(subs, ACTIVE) == WithStatus(prefix, ACTIVE);
      }
    }
  }

  /** The prices of the active records of one category, added up over the whole list. */
  function CategorySpend(subs: seq<Sub>, category: string): int
  {
    if subs == [] then 0
    else
      var last := subs[|subs| - 1];
      CategorySpend(subs[..|subs| - 1], category)
      + (if last.status == ACTIVE && last.category == category then last.price else 0)
  }

  /**
   * Each bar of the chart: the amount stored under a category (0 when it is
   * absent) is the spend of the active records of that category.
   */
  lemma {:induction false} CategorizeAmount(subs: seq<Sub>, category: string)
    ensures (if category in Categorize(subs).amount then Categorize(subs).amount[category] else 0)
            == CategorySpend(subs, category)
  {
    if subs != [] {
      CategorizeAmount(subs[..|subs| - 1], category);
    }
  }
}
