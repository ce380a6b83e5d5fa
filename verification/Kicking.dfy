/**
  Whom the kick passes of a tick pick, and when the load pass runs.
 */
module Kicking {
  import opened Types
  import opened Arithmetic
  import opened Roam
  import opened Steering
  import opened Stations
  import opened Candidates

  predicate Inactive(cfg: Config, si: StaInfo) {
    si.activeBits < cfg.kickClientActiveBits
  }

  /** Connected (a poll in progress counts as connected) and inactive. */
  predicate Kickable(cfg: Config, si: StaInfo) {
    si.connected != 0 && Inactive(cfg, si)
  }

  /** In the entry's numbers. */
  lemma KickableInNumbers(cfg: Config, si: StaInfo)
    ensures Kickable(cfg, si) <==> si.connected != 0 && si.activeBits < cfg.kickClientActiveBits
  {
  }

  /** An entry after its client was kicked. */
  function Gone(now: nat, si: StaInfo): StaInfo {
    si.(connected := 0, roam := si.roam.(kick := now))
  }

  function GoneAndCounted(now: nat, si: StaInfo): StaInfo {
    Gone(now, si.(kickCount := si.kickCount + 1))
  }

  // ---------------------------------------------------------------- the roam pass

  function RoamScanSnr(cfg: Config): int {
    if cfg.roamScanSnr != 0 then cfg.roamScanSnr else cfg.roamTriggerSnr
  }

  /** How the roam machine moves on for one entry. */
  function Look(w: World, x: Table, p: Ptr): (Roaming, Act)
    requires Known(w, x.info) && Indexed(x) && p in x.info
  {
    var si := x.info[p];
    var node := w.nodes[si.node];
    Examine(
      w.cfg, w.now,
      Kickable(w.cfg, si) && si.signal < SnrToSignal(node, RoamScanSnr(w.cfg)),
      si.signal > SnrToSignal(node, w.cfg.roamTriggerSnr),
      Search(w, x, p) != NotFound,
      si.roam)
  }

  /** The entry after the roam pass has looked at it. */
  function Looked(w: World, x: Table, p: Ptr): StaInfo
    requires Known(w, x.info) && Indexed(x) && p in x.info
  {
    var (r, act) := Look(w, x, p);
    x.info[p].(roam := r, connected := if act == Deauth then 0 else x.info[p].connected)
  }

  /** A search depends on the entry, its station's list and the entries in it only. */
  lemma SearchIsLocal(w: World, x: Table, y: Table, p: Ptr)
    requires Known(w, x.info) && Known(w, y.info) && Indexed(x) && Indexed(y)
    requires p in x.info && p in y.info && x.info[p] == y.info[p]
    requires var a := x.info[p].sta;
      && a in x.stations && a in y.stations && x.stations[a] == y.stations[a]
      && forall q :: q in x.stations[a] && q in x.info && q in y.info ==> x.info[q] == y.info[q]
    ensures Search(w, x, p) == Search(w, y, p)
  {
    StationList(x, p);
    StationList(y, p);
    BetterEntryIsLocal(w, x.info, y.info, p, x.stations[x.info[p].sta]);
  }

  lemma {:induction false} BetterEntryIsLocal(w: World, info: map<Ptr, StaInfo>, info': map<Ptr, StaInfo>, p: Ptr,
                                              list: seq<Ptr>)
    requires Known(w, info) && Known(w, info') && p in info && p in info' && info[p] == info'[p]
    requires forall q :: q in list ==> q in info && q in info' && info[q] == info'[q]
    ensures BetterEntry(w, info, p, list) == BetterEntry(w, info', p, list)
  {
    if list != [] {
      BetterEntryIsLocal(w, info, info', p, list[1..]);
    }
  }

  // ---------------------------------------------------------------- the choice of the load pass

  predicate IsMoreKickable(cur: Option<StaInfo>, si: StaInfo) {
    if cur.None? then true
    else if si.kickCount > cur.value.kickCount then false
    else cur.value.signal > si.signal
  }

  /** `a` was kicked no more often than `b` and is strictly weaker. */
  ghost predicate Dominates(a: StaInfo, b: StaInfo) {
    a.kickCount <= b.kickCount && a.signal < b.signal
  }

  /** Each client of the pool in the chain is the first after the one before to dominate it, and none dominates the last. */
  ghost predicate Succession(info: map<Ptr, StaInfo>, list: seq<Ptr>, pool: set<Ptr>, chain: seq<nat>)
    requires forall p :: p in list ==> p in info
  {
    && chain != [] && (forall k :: 0 <= k < |chain| ==> chain[k] < |list| && list[chain[k]] in pool)
    && (forall j :: 0 <= j < chain[0] ==> list[j] !in pool)
    && (forall k :: 0 <= k < |chain| - 1 ==>
          chain[k] < chain[k + 1] && Dominates(info[list[chain[k + 1]]], info[list[chain[k]]]))
    && (forall k, j :: 0 <= k < |chain| && chain[k] < j < Until(list, chain, k) && list[j] in pool ==>
          !Dominates(info[list[j]], info[list[chain[k]]]))
  }

  /** The place of the next in the chain. */
  ghost function Until(list: seq<Ptr>, chain: seq<nat>, k: nat): nat
    requires k < |chain|
  {
    if k + 1 < |chain| then chain[k + 1] else |list|
  }

  /** The choice from those of the pool on the list: the last of such a chain. */
  ghost predicate BestOf(info: map<Ptr, StaInfo>, list: seq<Ptr>, pool: set<Ptr>, choice: Option<Ptr>)
    requires forall p :: p in list ==> p in info
  {
    if choice.None? then forall p :: p in list ==> p !in pool
    else exists chain :: Succession(info, list, pool, chain) && list[chain[|chain| - 1]] == choice.value
  }

  /** One more client considered; that `Dominates` is not total does not matter. */
  lemma ChoiceGrows(info: map<Ptr, StaInfo>, list: seq<Ptr>, pool: set<Ptr>, choice: Option<Ptr>, p: Ptr)
    requires (forall q :: q in list ==> q in info) && p in info && BestOf(info, list, pool, choice)
    ensures choice.Some? ==> choice.value in list
    ensures var cur := if choice.None? then None else Some(info[choice.value]);
      BestOf(info, list + [p], pool, if p in pool && IsMoreKickable(cur, info[p]) then Some(p) else choice)
  {
    var grown := list + [p];
    if choice.None? {
      if p in pool {
        assert Succession(info, grown, pool, [|list|]);
      }
    } else {
      var chain :| Succession(info, list, pool, chain) && list[chain[|chain| - 1]] == choice.value;
      if p in pool && IsMoreKickable(Some(info[choice.value]), info[p]) {
        ChainGrows(info, list, pool, chain, p);
      } else {
        ChainStays(info, list, pool, chain, p);
      }
    }
  }

  lemma ChainGrows(info: map<Ptr, StaInfo>, list: seq<Ptr>, pool: set<Ptr>, chain: seq<nat>, p: Ptr)
    requires (forall q :: q in list ==> q in info) && p in info && Succession(info, list, pool, chain)
    requires p in pool && Dominates(info[p], info[list[chain[|chain| - 1]]])
    ensures Succession(info, list + [p], pool, chain + [|list|])
  {
    var (grown, longer) := (list + [p], chain + [|list|]);
    assert forall k :: 0 <= k < |chain| ==> Until(grown, longer, k) == Until(list, chain, k);
    assert Until(grown, longer, |chain|) == |list| + 1;
  }

  lemma ChainStays(info: map<Ptr, StaInfo>, list: seq<Ptr>, pool: set<Ptr>, chain: seq<nat>, p: Ptr)
    requires (forall q :: q in list ==> q in info) && p in info && Succession(info, list, pool, chain)
    requires p in pool ==> !Dominates(info[p], info[list[chain[|chain| - 1]]])
    ensures Succession(info, list + [p], pool, chain)
  {
    assert forall k :: 0 <= k < |chain| - 1 ==> Until(list + [p], chain, k) == Until(list, chain, k);
  }

  /** Nobody in the pool was kicked no more often than the last of the chain and is weaker. */
  lemma {:induction false} ChainEndsUndominated(info: map<Ptr, StaInfo>, list: seq<Ptr>, pool: set<Ptr>, chain: seq<nat>,
                                                j: nat, k: nat)
    requires (forall q :: q in list ==> q in info) && Succession(info, list, pool, chain)
    requires j < |list| && list[j] in pool && k < |chain| && (k == 0 || chain[k] <= j)
    ensures var last := info[list[chain[|chain| - 1]]];
      last.kickCount <= info[list[chain[k]]].kickCount && last.signal <= info[list[chain[k]]].signal
      && !Dominates(info[list[j]], last)
    decreases |chain| - k
  {
    if k + 1 < |chain| {
      if chain[k + 1] <= j {
        ChainEndsUndominated(info, list, pool, chain, j, k + 1);
      } else {
        ChainFalls(info, list, pool, chain, k + 1);
        assert chain[k] == j || (chain[k] < j < Until(list, chain, k));
      }
    } else {
      assert chain[k] == j || (chain[k] < j < Until(list, chain, k));
    }
  }

  /** Along the chain clients get weaker and were kicked less often. */
  lemma {:induction false} ChainFalls(info: map<Ptr, StaInfo>, list: seq<Ptr>, pool: set<Ptr>, chain: seq<nat>, k: nat)
    requires (forall q :: q in list ==> q in info) && Succession(info, list, pool, chain) && k < |chain|
    ensures var last := info[list[chain[|chain| - 1]]];
      last.kickCount <= info[list[chain[k]]].kickCount && last.signal <= info[list[chain[k]]].signal
    decreases |chain| - k
  {
    if k + 1 < |chain| {
      ChainFalls(info, list, pool, chain, k + 1);
    }
  }

  lemma BestIsUndominated(info: map<Ptr, StaInfo>, list: seq<Ptr>, pool: set<Ptr>, p: Ptr)
    requires (forall q :: q in list ==> q in info) && BestOf(info, list, pool, Some(p))
    ensures p in list && p in pool
    ensures forall q :: q in list && q in pool ==> !Dominates(info[q], info[p])
  {
    var chain :| Succession(info, list, pool, chain) && list[chain[|chain| - 1]] == p;
    forall q | q in list && q in pool
      ensures !Dominates(info[q], info[p])
    {
      var j :| 0 <= j < |list| && list[j] == q;
      ChainEndsUndominated(info, list, pool, chain, j, 0);
    }
  }

  lemma {:induction false} SameChain(info: map<Ptr, StaInfo>, list: seq<Ptr>, pool: set<Ptr>, c: seq<nat>, d: seq<nat>,
                                     k: nat)
    requires (forall q :: q in list ==> q in info) && Succession(info, list, pool, c) && Succession(info, list, pool, d)
    requires k < |c|
    ensures k < |d| && c[k] == d[k]
  {
    if k == 0 {
      assert !(c[0] < d[0]) && !(d[0] < c[0]);
    } else {
      SameChain(info, list, pool, c, d, k - 1);
      assert Until(list, c, k - 1) == c[k];
      assert k < |d| ==> Until(list, d, k - 1) == d[k];
    }
  }

  /** So list and pool determine the choice. */
  lemma BestIsUnique(info: map<Ptr, StaInfo>, list: seq<Ptr>, pool: set<Ptr>, p: Option<Ptr>, q: Option<Ptr>)
    requires (forall q :: q in list ==> q in info) && BestOf(info, list, pool, p) && BestOf(info, list, pool, q)
    ensures p == q
  {
    if p.Some? && q.Some? {
      var c :| Succession(info, list, pool, c) && list[c[|c| - 1]] == p.value;
      var d :| Succession(info, list, pool, d) && list[d[|d| - 1]] == q.value;
      SameChain(info, list, pool, c, d, |c| - 1);
      SameChain(info, list, pool, d, c, |d| - 1);
    }
  }

  // ---------------------------------------------------------------- when the load pass runs

  predicate LoadKicking(cfg: Config) {
    cfg.loadKickEnabled && cfg.loadKickThreshold != 0 && cfg.loadKickDelay != 0
  }

  /** `DIV_ROUND_UP` in 32 bits. */
  function DelayTicks(cfg: Config): nat
    requires Sane(cfg)
  {
    ((cfg.loadKickDelay + cfg.localStaUpdate - 1) % U32) / cfg.localStaUpdate
  }

  /** So many ticks last the delay, and no fewer. */
  ghost predicate LeastTicks(cfg: Config, n: nat) {
    && cfg.loadKickDelay <= n * cfg.localStaUpdate
    && forall m: nat :: cfg.loadKickDelay <= m * cfg.localStaUpdate ==> n <= m
  }

  /** Rounding up gives that number exactly if the sum it takes does not wrap in 32 bits. */
  lemma DelayTicksLast(cfg: Config)
    requires Sane(cfg) && cfg.loadKickDelay < U32 && cfg.localStaUpdate < U32
    ensures LeastTicks(cfg, DelayTicks(cfg)) <==> cfg.loadKickDelay + cfg.localStaUpdate <= U32
  {
    var (d, u) := (cfg.loadKickDelay, cfg.localStaUpdate);
    var sum := (d + u - 1) % U32;
    var (q, r) := (sum / u, sum % u);
    assert sum == q * u + r;
    if d + u <= U32 {
      assert sum == d + u - 1;
      RoundedUp(d, u, q);
    } else {
      assert sum == d + u - 1 - U32;
    }
  }

  lemma RoundedUp(d: nat, u: nat, q: nat)
    requires 0 < u && d <= q * u <= d + u - 1
    ensures forall m: nat :: d <= m * u ==> q <= m
  {
    forall m: nat | d <= m * u
      ensures q <= m
    {
      assert (m + 1) * u == m * u + u;
      if m < q {
        Times(m + 1, q, u);
      }
    }
  }

  lemma Times(m: nat, n: nat, u: nat)
    requires m <= n
    ensures m * u <= n * u
  {
  }

  /** The counter after a tick, and whether the load pass goes ahead. */
  function CountLoad(cfg: Config, load: nat, count: nat): (nat, bool)
    requires Sane(cfg)
  {
    if load < cfg.loadKickThreshold then (0, false)
    else if count + 1 <= DelayTicks(cfg) then (count + 1, false)
    else (0, true)
  }

  /** The counter after the loads of a run of ticks. */
  function CountAfter(cfg: Config, loads: seq<nat>): nat
    requires Sane(cfg)
  {
    if loads == [] then 0
    else CountLoad(cfg, loads[|loads| - 1], CountAfter(cfg, loads[..|loads| - 1])).0
  }

  /** How many ticks at the end of the run were at or above the threshold. */
  function Streak(cfg: Config, loads: seq<nat>): nat {
    if loads == [] || loads[|loads| - 1] < cfg.loadKickThreshold then 0
    else 1 + Streak(cfg, loads[..|loads| - 1])
  }

  /**
    The load pass goes ahead at the end of a run exactly when the ticks in a row at or above the
    threshold are a positive multiple of the delay ticks plus one.
   */
  lemma {:induction false} LoadPassRuns(cfg: Config, loads: seq<nat>)
    requires Sane(cfg)
    ensures CountAfter(cfg, loads) == Streak(cfg, loads) % (DelayTicks(cfg) + 1)
    ensures loads != [] ==>
      (CountLoad(cfg, loads[|loads| - 1], CountAfter(cfg, loads[..|loads| - 1])).1
       <==> Streak(cfg, loads) != 0 && Streak(cfg, loads) % (DelayTicks(cfg) + 1) == 0)
  {
    hide DelayTicks;
    RemainderStep(0, DelayTicks(cfg));
    if loads != [] {
      LoadPassRuns(cfg, loads[..|loads| - 1]);
      RemainderStep(Streak(cfg, loads[..|loads| - 1]), DelayTicks(cfg));
    }
  }

  /** So it takes that many ticks in a row, and as many again for the next time. */
  lemma {:induction false} StreakIsHigh(cfg: Config, loads: seq<nat>, i: nat)
    requires i < |loads| && |loads| - Streak(cfg, loads) <= i
    ensures Streak(cfg, loads) <= |loads| && loads[i] >= cfg.loadKickThreshold
  {
    if loads[|loads| - 1] >= cfg.loadKickThreshold && i < |loads| - 1 {
      StreakIsHigh(cfg, loads[..|loads| - 1], i);
    } else {
      StreakWithin(cfg, loads);
    }
  }

  lemma {:induction false} StreakWithin(cfg: Config, loads: seq<nat>)
    ensures Streak(cfg, loads) <= |loads|
  {
    if loads != [] && loads[|loads| - 1] >= cfg.loadKickThreshold {
      StreakWithin(cfg, loads[..|loads| - 1]);
    }
  }

  lemma LoadPassNeedsHighLoad(cfg: Config, loads: seq<nat>, i: nat)
    requires Sane(cfg) && loads != []
    requires CountLoad(cfg, loads[|loads| - 1], CountAfter(cfg, loads[..|loads| - 1])).1
    ensures DelayTicks(cfg) + 1 <= |loads|
    ensures |loads| - (DelayTicks(cfg) + 1) <= i < |loads| ==> loads[i] >= cfg.loadKickThreshold
  {
    LoadPassRuns(cfg, loads);
    StreakWithin(cfg, loads);
    var (s, m) := (Streak(cfg, loads), DelayTicks(cfg) + 1);
    if s < m {
      UniqueRemainder(s, m, 0, s);
    }
    if |loads| - m <= i < |loads| {
      StreakIsHigh(cfg, loads, i);
    }
  }
}
