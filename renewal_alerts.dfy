/**
 * The "Expiring Soon" panel: the active subscriptions that renew within the
 * next seven days, each with its days left, ordered by days left with ties
 * kept in list order, and the message shown for each of them.
 */
module RenewalAlerts {
  import opened Wrappers
  import opened Numbers
  import opened Records
  import opened DashboardStats

  /** 1000 * 60 * 60 * 24 milliseconds. */
  const MS_PER_DAY: int := 1000 * 60 * 60 * 24

  /** Math.ceil((renewal - today) / MS_PER_DAY), both instants in milliseconds. */
  function DaysLeft(renewal: int, today: int): (d: int)
    ensures (d - 1) * MS_PER_DAY < renewal - today <= d * MS_PER_DAY
  {
    CeilDiv(renewal - today, MS_PER_DAY)
  }

  /** A renewal at the very instant of today has 0 days left. */
  lemma DueNow(today: int)
    ensures DaysLeft(today, today) == 0
  {
  }

  /** Anything strictly ahead but at most one day ahead has 1 day left. */
  lemma DueWithinOneDay(renewal: int, today: int)
    requires today < renewal <= today + MS_PER_DAY
    ensures DaysLeft(renewal, today) == 1
  {
  }

  /**
   * The panel's window 0 <= daysLeft <= 7 holds exactly for renewals less than
   * a day in the past up to seven whole days ahead.
   */
  lemma SoonWindow(renewal: int, today: int)
    ensures 0 <= DaysLeft(renewal, today) <= 7
            <==> today - MS_PER_DAY < renewal <= today + 7 * MS_PER_DAY
  {
  }

  /** { ...s, daysLeft }: a subscription together with its days left. */
  datatype Alert = Alert(sub: Sub, daysLeft: int)

  /**
   * The days left before a subscription renews; None when its date text does
   * not parse, where the source computes NaN, which fails every comparison.
   */
  function DaysUntilRenewal(s: Sub, today: int, parseDate: string -> Option<int>): (days: Option<int>)
    ensures days.None? <==> parseDate(s.renewalDate).None?
    ensures days.Some? ==>
      var renewal := parseDate(s.renewalDate).value;
      (days.value - 1) * MS_PER_DAY < renewal - today <= days.value * MS_PER_DAY
  {
    match parseDate(s.renewalDate)
    case None => None
    case Some(renewal) => Some(DaysLeft(renewal, today))
  }

  predicate Soon(d: int) { 0 <= d <= 7 }

  /** What qualifies an alert for the panel. */
  ghost predicate Qualifies(a: Alert, subs: seq<Sub>, today: int, parseDate: string -> Option<int>)
  {
    a.sub in subs && a.sub.status == ACTIVE &&
    DaysUntilRenewal(a.sub, today, parseDate) == Some(a.daysLeft) && Soon(a.daysLeft)
  }

  /**
   * filter(active), then map to { ...s, daysLeft }, then filter(0 <= daysLeft <= 7),
   * in list order: the panel's entries before they are sorted.
   */
  function Candidates(subs: seq<Sub>, today: int, parseDate: string -> Option<int>): (r: seq<Alert>)
    ensures |r| <= ActiveCount(subs)
    ensures forall a :: a in r <==> Qualifies(a, subs, today, parseDate)
  {
    if subs == [] then []
    else
      var prefix, s := subs[..|subs| - 1], subs[|subs| - 1];
      assert subs == prefix + [s];
      var before := Candidates(prefix, today, parseDate);
      var days := DaysUntilRenewal(s, today, parseDate);
      if s.status == ACTIVE && days.Some? && Soon(days.value)
      then before + [Alert(s, days.value)]
      else before
  }

  /**
   * Each qualifying alert appears as many times as its subscription does in
   * the list, and no other alert appears.
   */
  lemma {:induction false} CandidatesCounts(subs: seq<Sub>, today: int, parseDate: string -> Option<int>)
    ensures forall a :: multiset(Candidates(subs, today, parseDate))[a]
                        == if a.sub.status == ACTIVE && DaysUntilRenewal(a.sub, today, parseDate) == Some(a.daysLeft)
                              && Soon(a.daysLeft)
                           then multiset(subs)[a.sub] else 0
  {
    if subs != [] {
      var prefix, s := subs[..|subs| - 1], subs[|subs| - 1];
      CandidatesCounts(prefix, today, parseDate);
      assert subs == prefix + [s];
    }
  }

  /** The alerts with a given number of days left, in their order. */
  function WithDays(alerts: seq<Alert>, d: int): seq<Alert>
  {
    if alerts == [] then []
    else (if alerts[0].daysLeft == d then [alerts[0]] else []) + WithDays(alerts[1..], d)
  }

  lemma {:induction false} WithDaysMember(alerts: seq<Alert>, d: int, a: Alert)
    ensures a in WithDays(alerts, d) <==> a in alerts && a.daysLeft == d
  {
    if alerts != [] {
      WithDaysMember(alerts[1..], d, a);
      assert alerts == [alerts[0]] + alerts[1..];
    }
  }

  predicate SortedByDays(alerts: seq<Alert>)
  {
    forall i, j :: 0 <= i < j < |alerts| ==> alerts[i].daysLeft <= alerts[j].daysLeft
  }

  lemma SortedHeadIsLeast(u: seq<Alert>, y: Alert)
    requires SortedByDays(u) && y in u
    ensures u[0].daysLeft <= y.daysLeft
  {
  }

  /** Places x before the first entry of a list that has at least as many days left. */
  function Insert(x: Alert, sorted: seq<Alert>): seq<Alert>
  {
    if sorted == [] || x.daysLeft <= sorted[0].daysLeft then [x] + sorted
    else [sorted[0]] + Insert(x, sorted[1..])
  }

  lemma {:induction false} InsertPermutes(x: Alert, sorted: seq<Alert>)
    ensures multiset(Insert(x, sorted)) == multiset(sorted) + multiset{x}
  {
    if sorted != [] && x.daysLeft > sorted[0].daysLeft {
      InsertPermutes(x, sorted[1..]);
      assert sorted == [sorted[0]] + sorted[1..];
    }
  }

  lemma {:induction false} InsertAbove(x: Alert, sorted: seq<Alert>, low: int)
    requires low <= x.daysLeft
    requires forall i :: 0 <= i < |sorted| ==> low <= sorted[i].daysLeft
    ensures forall i :: 0 <= i < |Insert(x, sorted)| ==> low <= Insert(x, sorted)[i].daysLeft
  {
    if sorted != [] && x.daysLeft > sorted[0].daysLeft {
      InsertAbove(x, sorted[1..], low);
    }
  }

  lemma SortedCons(head: Alert, rest: seq<Alert>)
    requires SortedByDays(rest)
    requires forall i :: 0 <= i < |rest| ==> head.daysLeft <= rest[i].daysLeft
    ensures SortedByDays([head] + rest)
  {
    var r := [head] + rest;
    forall i, j | 0 <= i < j < |r| ensures r[i].daysLeft <= r[j].daysLeft {
      assert r[j] == rest[j - 1];
      if i > 0 { assert r[i] == rest[i - 1]; }
    }
  }

  lemma {:induction false} InsertSorted(x: Alert, sorted: seq<Alert>)
    requires SortedByDays(sorted)
    ensures SortedByDays(Insert(x, sorted))
  {
    if sorted == [] || x.daysLeft <= sorted[0].daysLeft {
      SortedCons(x, sorted);
    } else {
      var head, tail := sorted[0], sorted[1..];
      InsertSorted(x, tail);
      InsertAbove(x, tail, head.daysLeft);
      SortedCons(head, Insert(x, tail));
    }
  }

  /**
   * sort((a, b) => a.daysLeft - b.daysLeft): JavaScript's sort is stable, so
   * this is an insertion sort that keeps entries with equal days in order.
   */
  function SortByDays(alerts: seq<Alert>): (r: seq<Alert>)
    ensures SortedByDays(r)
    ensures multiset(r) == multiset(alerts)
  {
    if alerts == [] then []
    else
      var rest := SortByDays(alerts[1..]);
      InsertSorted(alerts[0], rest);
      InsertPermutes(alerts[0], rest);
      assert alerts == [alerts[0]] + alerts[1..];
      Insert(alerts[0], rest)
  }

  lemma {:induction false} InsertStable(x: Alert, sorted: seq<Alert>, d: int)
    ensures WithDays(Insert(x, sorted), d) == WithDays([x] + sorted, d)
  {
    if sorted != [] && x.daysLeft > sorted[0].daysLeft {
      var head, tail := sorted[0], sorted[1..];
      var inserted := Insert(x, tail);
      InsertStable(x, tail, d);
      var h := if head.daysLeft == d then [head] else [];
      var xs := if x.daysLeft == d then [x] else [];
      assert h == [] || xs == [];
      calc {
        WithDays(Insert(x, sorted), d);
        WithDays([head] + inserted, d);
        { assert ([head] + inserted)[1..] == inserted; }
        h + WithDays(inserted, d);
        h + WithDays([x] + tail, d);
        { assert ([x] + tail)[1..] == tail; }
        h + (xs + WithDays(tail, d));
        xs + (h + WithDays(tail, d));
        { assert sorted[1..] == tail; }
        xs + WithDays(sorted, d);
        { assert ([x] + sorted)[1..] == sorted; }
        WithDays([x] + sorted, d);
      }
    }
  }

  /** The sort is stable: for every day count, the entries with it keep their order. */
  lemma {:induction false} SortByDaysStable(alerts: seq<Alert>, d: int)
    ensures WithDays(SortByDays(alerts), d) == WithDays(alerts, d)
  {
    if alerts != [] {
      var tail := alerts[1..];
      SortByDaysStable(tail, d);
      InsertStable(alerts[0], SortByDays(tail), d);
      assert ([alerts[0]] + SortByDays(tail))[1..] == SortByDays(tail);
    }
  }

  lemma HeadHasItsDays(u: seq<Alert>)
    requires u != []
    ensures WithDays(u, u[0].daysLeft) != []
  {
  }

  lemma {:induction false} SameHead(t: seq<Alert>, u: seq<Alert>)
    requires SortedByDays(t) && SortedByDays(u) && t != [] && u != []
    requires forall d :: WithDays(t, d) == WithDays(u, d)
    ensures t[0] == u[0]
  {
    var m, n := t[0].daysLeft, u[0].daysLeft;
    WithDaysMember(t, m, t[0]);
    WithDaysMember(u, m, t[0]);
    SortedHeadIsLeast(u, t[0]);
    WithDaysMember(u, n, u[0]);
    WithDaysMember(t, n, u[0]);
    SortedHeadIsLeast(t, u[0]);
    assert WithDays(t, m)[0] == t[0];
    assert WithDays(u, m)[0] == u[0];
  }

  lemma {:induction false} SameTails(t: seq<Alert>, u: seq<Alert>)
    requires t != [] && u != [] && t[0] == u[0]
    requires forall d :: WithDays(t, d) == WithDays(u, d)
    ensures forall d :: WithDays(t[1..], d) == WithDays(u[1..], d)
  {
    forall d
      ensures WithDays(t[1..], d) == WithDays(u[1..], d)
    {
      var x := t[0];
      var wt, wu := WithDays(t[1..], d), WithDays(u[1..], d);
      if d == x.daysLeft {
        assert [x] + wt == WithDays(t, d) == WithDays(u, d) == [x] + wu;
        assert wt == ([x] + wt)[1..];
        assert wu == ([x] + wu)[1..];
      } else {
        assert wt == WithDays(t, d) == WithDays(u, d) == wu;
      }
    }
  }

  /**
   * A list sorted by days left is determined by the order of the entries of
   * each day count.
   */
  lemma {:induction false} SortedDeterminedByDays(t: seq<Alert>, u: seq<Alert>)
    requires SortedByDays(t) && SortedByDays(u)
    requires forall d :: WithDays(t, d) == WithDays(u, d)
    ensures t == u
  {
    if t == [] && u != [] {
      HeadHasItsDays(u);
      assert false;
    } else if t != [] && u == [] {
      HeadHasItsDays(t);
      assert false;
    } else if t != [] {
      SameHead(t, u);
      SameTails(t, u);
      SortedDeterminedByDays(t[1..], u[1..]);
      assert t == [t[0]] + t[1..] && u == [u[0]] + u[1..];
    }
  }

  /** The panel's list, Dashboard's expiringSoon. */
  function ExpiringSoon(subs: seq<Sub>, today: int, parseDate: string -> Option<int>): (r: seq<Alert>)
    ensures SortedByDays(r)
    ensures forall a :: a in r <==> Qualifies(a, subs, today, parseDate)
    ensures |r| <= ActiveCount(subs)
    ensures multiset(r) == multiset(Candidates(subs, today, parseDate))
  {
    var candidates := Candidates(subs, today, parseDate);
    var r := SortByDays(candidates);
    assert |r| == |multiset(r)| == |multiset(candidates)| == |candidates|;
    assert forall a :: a in r <==> a in candidates by {
      forall a ensures a in r <==> a in candidates {
        assert a in r <==> a in multiset(r);
        assert a in candidates <==> a in multiset(candidates);
      }
    }
    r
  }

  /**
   * The panel keeps list order among entries with the same days left, and
   * any list sorted by days left that does so is the panel's list: the
   * result does not depend on which stable sort produces it.
   */
  lemma ExpiringSoonIsTheStableSort(subs: seq<Sub>, today: int, parseDate: string -> Option<int>, other: seq<Alert>)
    ensures forall d :: WithDays(ExpiringSoon(subs, today, parseDate), d) == WithDays(Candidates(subs, today, parseDate), d)
    ensures SortedByDays(other) && (forall d :: WithDays(other, d) == WithDays(Candidates(subs, today, parseDate), d))
            ==> other == ExpiringSoon(subs, today, parseDate)
  {
    var candidates := Candidates(subs, today, parseDate);
    forall d ensures WithDays(ExpiringSoon(subs, today, parseDate), d) == WithDays(candidates, d) {
      SortByDaysStable(candidates, d);
    }
    if SortedByDays(other) && (forall d :: WithDays(other, d) == WithDays(candidates, d)) {
      SortedDeterminedByDays(other, ExpiringSoon(subs, today, parseDate));
    }
  }

  /** The text next to each entry: "Expires today" or "Expires in N days". */
  function AlertMessage(daysLeft: int): (msg: string)
    ensures daysLeft == 0 <==> msg == "Expires today"
    ensures daysLeft != 0 ==>
      |msg| > 16 && msg[..11] == "Expires in " && msg[|msg| - 5..] == " days" &&
      ParseNumber(msg[11..|msg| - 5]) == Some(daysLeft)
  {
    if daysLeft == 0 then "Expires today"
    else
      var text := IntText(daysLeft);
      var msg := "Expires in " + text + " days";
      assert msg[11..|msg| - 5] == text;
      ParseNumberOfIntText(daysLeft);
      msg
  }

  /** Different days left never show the same message. */
  lemma AlertMessageInjective(a: int, b: int)
    ensures AlertMessage(a) == AlertMessage(b) ==> a == b
  {
  }
}
