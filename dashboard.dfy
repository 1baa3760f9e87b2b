/** The four figures of the dashboard's cards, derived from the list of subscriptions. */
module Dashboard {
  import opened Wrappers
  import opened Records
  import opened DashboardStats
  import opened RenewalAlerts

  datatype Stats = Stats(active: nat, spend: int, upcoming: nat, expired: nat)

  /**
   * Active Subscriptions, Monthly Spend, Upcoming Renewals (the length of
   * the expiring-soon list) and Expired Subscriptions, as of `today`.
   */
  function Derive(subs: seq<Sub>, today: int, parseDate: string -> Option<int>): (st: Stats)
    ensures st.active + st.expired <= |subs|
    ensures st.upcoming <= st.active
    ensures st.active == 0 ==> st.spend == 0 && st.upcoming == 0
  {
    StatusCountsBound(subs);
    var active := WithStatus(subs, ACTIVE);
    assert active != [] ==> active[0] in subs;
    Stats(ActiveCount(subs), Spend(subs), |ExpiringSoon(subs, today, parseDate)|, ExpiredCount(subs))
  }
}
