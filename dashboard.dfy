/** The dashboard: counts of gamification events, the total of their coin
    rewards, and the five most recently updated events. */
module Dashboard {
  import opened Common

  /** A `gamification_events` row as the dashboard selects it. */
  datatype EventRow = EventRow(id: string, eventType: string, isActive: bool, coinsReward: int, updatedAt: int)

  datatype Stats = Stats(totalEvents: nat, activeEvents: nat, inactiveEvents: nat, totalRewards: int)

  /** The state before anything is loaded, and after a failed load. */
  const ZeroStats: Stats := Stats(0, 0, 0, 0)

  /** What the dashboard shows. */
  datatype View = View(stats: Stats, recent: seq<EventRow>)

  predicate IsActive(e: EventRow) { e.isActive }
  predicate IsInactive(e: EventRow) { !e.isActive }
  function Coins(e: EventRow): int { e.coinsReward }

  /** The statistics of the loaded events (already in descending updated_at
      order, as the query asks). */
  function StatsOf(events: seq<EventRow>): (s: Stats)
    ensures s.totalEvents == |events|
    ensures s.activeEvents + s.inactiveEvents == s.totalEvents
    ensures s.activeEvents == Count(events, IsActive) && s.inactiveEvents == Count(events, IsInactive)
    ensures s.totalRewards == Sum(events, Coins)
  {
    CountIsFilterLength(events, IsActive);
    CountIsFilterLength(events, IsInactive);
    CountComplement(events, IsActive, IsInactive);
    Stats(|events|, |Filter(events, IsActive)|, |Filter(events, IsInactive)|, Sum(events, Coins))
  }

  /** loadDashboardData on the query's outcome (None for an error): a failed
      load leaves the zero statistics and no recent events; otherwise the
      statistics of the rows and the first five of them. */
  function LoadDashboard(read: Option<seq<EventRow>>): (v: View)
    ensures read.None? ==> v == View(ZeroStats, [])
    ensures read.Some? ==> v.stats == StatsOf(read.value)
    ensures read.Some? ==> |v.recent| == (if |read.value| < 5 then |read.value| else 5)
    ensures read.Some? ==> v.recent == read.value[..|v.recent|]
  {
    match read
    case None => View(ZeroStats, [])
    case Some(events) => View(StatsOf(events), Prefix(events, 5))
  }

  /** The reward total is the active events' total plus the inactive
      events' total. */
  lemma {:induction false} RewardsSplitByStatus(events: seq<EventRow>)
    ensures Sum(events, Coins) == Sum(Filter(events, IsActive), Coins) + Sum(Filter(events, IsInactive), Coins)
  {
    if events != [] {
      RewardsSplitByStatus(events[1..]);
    }
  }

  /** Loading more rows after the first five does not change the recent list. */
  lemma RecentIgnoresOlderRows(events: seq<EventRow>, older: seq<EventRow>)
    requires |events| >= 5
    ensures LoadDashboard(Some(events + older)).recent == LoadDashboard(Some(events)).recent
  {
    assert (events + older)[..5] == events[..5];
  }
}
