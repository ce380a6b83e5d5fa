/**
  The steering policy at work on the tables: searches that may create an
  entry, answers to requests, and the three kick passes of a tick.
 */
module Policy {
  import opened Types
  import opened Lists
  import opened Timeout
  import opened Roam
  import opened Steering
  import opened Stations
  import opened Candidates
  import opened Kicking
  import opened Registry

  /** `y` has the entries of `x`, and new, blank ones of other nodes than `node`. */
  ghost predicate Grown(x: Table, y: Table, node: NodeId) {
    && x.info.Keys <= y.info.Keys
    && (forall p :: p in x.info ==> y.info[p] == x.info[p])
    && (forall p :: p in y.info && p !in x.info ==> Blank(y.info[p]) && y.info[p].node != node)
    && y.stations.Keys == x.stations.Keys && y.lists.Keys == x.lists.Keys
    && (node in x.lists ==> y.lists[node] == x.lists[node])
  }

  /** Only the list of one station changed. */
  ghost predicate OnlyStation(x: Table, y: Table, addr: Addr) {
    && (forall a :: a in x.stations && a in y.stations && a != addr ==> y.stations[a] == x.stations[a])
    && (forall p :: p in y.info && p !in x.info ==> y.info[p].sta == addr)
  }

  lemma AddGrows(x: Table, q: Ptr, si: StaInfo, node: NodeId)
    requires q !in x.info && si.sta in x.stations && si.node in x.lists && si.node != node && Blank(si)
    ensures Grown(x, Add(x, q, si), node) && OnlyStation(x, Add(x, q, si), si.sta)
    ensures Inhabited(x) ==> Inhabited(Add(x, q, si))
  {
  }

  lemma KnownNow(r: Registry)
    requires r.Valid()
    ensures r.Core() && Known(r.Now(), r.table.info) && Indexed(r.table) && Sane(r.cfg)
    ensures forall p :: p in r.table.info ==> r.table.info[p].node in r.nodes
    ensures r.nodes.Keys == r.table.lists.Keys
  {
    r.EntriesAreKnown();
  }

  lemma TimersNow(r: Registry)
    requires r.Valid()
    ensures r.tq.pending.Keys <= r.table.info.Keys
  {
  }

  ghost predicate HasEntry(y: Table, ln: NodeId, addr: Addr) {
    exists p :: p in y.info && y.info[p].node == ln && y.info[p].sta == addr
  }

  /** The entry `p` of one station for one node is new or as before, and all others are as before. */
  ghost predicate OnlyEntry(x: Table, y: Table, p: Ptr, node: NodeId, addr: Addr) {
    && p in y.info && y.info[p].node == node && y.info[p].sta == addr
    && (p in x.info ==> x.info[p].node == node && x.info[p].sta == addr)
    && y.info.Keys == x.info.Keys + {p}
    && (forall q :: q in x.info && q != p ==> y.info[q] == x.info[q])
    && y.lists.Keys == x.lists.Keys
  }

  lemma EntryFacts(x: Table, y: Table, p: Ptr, node: NodeId, addr: Addr)
    requires OnlyEntry(x, y, p, node, addr)
    ensures p in y.info && y.info[p].node == node && y.info[p].sta == addr
  {
  }

  /** The entry of a station for a node, made if need be, together with the station. */
  method EntryOf(r: Registry, node: NodeId, addr: Addr) returns (p: Ptr)
    requires r.Valid() && node in r.nodes
    modifies r`table
    ensures r.Valid() && OnlyEntry(old(r.table), r.table, p, node, addr)
    ensures r.table.info[p] ==
      if p in old(r.table).info then old(r.table).info[p] else NewEntry(node, addr, r.nodes[node].freq, r.currentTime)
  {
    hide Indexed, ReportsOwned, Represents;
    ghost var x := r.table;
    r.StaGet(addr);
    ghost var y := r.table;
    var created;
    p, created := r.StaInfoGet(addr, node);
    FirstEntryMakesValid(r, x, y, addr, node, p, created);
  }

  /** The station just made has its entry now. */
  lemma FirstEntryMakesValid(r: Registry, x: Table, y: Table, addr: Addr, node: NodeId, p: Ptr, created: bool)
    requires r.Core() && Inhabited(x) && Unhurried(r.cfg, r.locals, r.currentTime, x.info, r.tq.pending)
    requires r.tq.pending.Keys <= x.info.Keys
    requires y == if addr in x.stations then x else x.(stations := x.stations[addr := []])
    requires addr in y.stations && node in y.lists && node in r.nodes
    requires p in r.table.info && r.table.info[p].sta == addr
    requires !created ==> r.table == y
    requires created ==> p !in y.info && r.table == Add(y, p, NewEntry(node, addr, r.nodes[node].freq, r.currentTime))
    ensures r.Valid()
  {
    EntryListed(r.table, p);
    if created {
      NewEntryUnhurried(r.cfg, r.locals, r.currentTime, x.info, r.tq.pending, p, node, addr, r.nodes[node].freq);
    }
    hide Unhurried, Represents, Indexed, ReportsOwned;
  }

  lemma NewEntryUnhurried(cfg: Config, locals: seq<NodeId>, now: nat, info: map<Ptr, StaInfo>, pending: map<Ptr, Stamp>,
                          p: Ptr, node: NodeId, addr: Addr, freq: int)
    requires Unhurried(cfg, locals, now, info, pending) && p !in pending
    ensures Unhurried(cfg, locals, now, info[p := NewEntry(node, addr, freq, now)], pending)
  {
  }

  lemma GrownItself(x: Table, ln: NodeId)
    ensures Grown(x, x, ln) && forall addr :: OnlyStation(x, x, addr)
  {
  }

  /** The entry of a known station for another node than `node`. */
  method EntryElsewhere(r: Registry, addr: Addr, other: NodeId, node: NodeId) returns (q: Ptr)
    requires r.Valid() && addr in r.table.stations && other in r.nodes && other != node
    modifies r`table
    ensures r.Valid() && Grown(old(r.table), r.table, node) && OnlyStation(old(r.table), r.table, addr)
    ensures q in r.table.info && r.table.info[q].node == other && r.table.info[q].sta == addr
  {
    hide Indexed, ReportsOwned, Represents;
    ghost var x := r.table;
    var created;
    q, created := r.StaInfoGet(addr, other);
    GrownItself(x, node);
    if created {
      AddGrows(x, q, NewEntry(other, addr, r.nodes[other].freq, r.currentTime), node);
    }
  }

  lemma SearchSteps(w: World, x: Table, p: Ptr)
    requires Known(w, x.info) && Indexed(x) && p in x.info
    ensures var si := x.info[p];
      && si.sta in x.stations && (forall q :: q in x.stations[si.sta] ==> q in x.info)
      && si.node in w.nodes && (forall n :: n in w.order ==> n in w.nodes)
      && var (heard, other) := (HeardBetter(w, si), BetterEntry(w, x.info, p, x.stations[si.sta]));
         Search(w, x, p) == if heard.Some? then ByReport(heard.value)
                            else if other.Some? then ByEntry(other.value) else NotFound
  {
    StationList(x, p);
  }

  /** The better access point for a client, whose entry there is created if need be. */
  method FindBetterCandidate(r: Registry, p: Ptr) returns (found: Option<Ptr>)
    requires r.Valid() && p in r.table.info
    modifies r`table
    ensures r.Valid() && Grown(old(r.table), r.table, old(r.table).info[p].node)
    ensures OnlyStation(old(r.table), r.table, old(r.table).info[p].sta)
    ensures found.Some? <==> old(r.Candidate(p)) != NotFound
    ensures old(r.Candidate(p)).ByEntry? ==> found == Some(old(r.Candidate(p)).p) && r.table == old(r.table)
    ensures old(r.Candidate(p)).ByReport? ==>
      && found.value in r.table.info
      && r.table.info[found.value].node == old(r.Candidate(p)).node
      && r.table.info[found.value].sta == old(r.table).info[p].sta
  {
    hide Registry.Valid, Registry.Core, Indexed, Known, Grown, OnlyStation;
    KnownNow(r);
    var w, si := r.Now(), r.table.info[p];
    StationList(r.table, p);
    var heard := FindByReport(w, si.node, si.hearing.reports);
    SearchSteps(w, r.table, p);
    GrownItself(r.table, si.node);
    if heard.Some? {
      var q := EntryElsewhere(r, si.sta, heard.value, si.node);
      return Some(q);
    }
    found := FindByEntry(w, r.table.info, p, r.table.stations[si.sta]);
  }

  /** Is a request of the client to be answered? */
  method CheckRequest(r: Registry, p: Ptr, kind: EventType) returns (ok: bool)
    requires r.Valid() && p in r.table.info
    modifies r`table
    ensures r.Valid() && Grown(old(r.table), r.table, old(r.table).info[p].node)
    ensures ok <==> old(r.Accepting(p, kind))
  {
    r.EntriesAreKnown();
    var si := r.table.info[p];
    if kind == Assoc || si.StatsOf(kind).blockedCur >= r.cfg.maxRetryBand {
      return true;
    }
    if si.signal < SnrToSignal(r.nodes[si.node], r.cfg.minConnectSnr) {
      return false;
    }
    if Since(r.currentTime, si.created) < r.cfg.initialConnectDelay {
      return false;
    }
    var other := FindBetterCandidate(r, p);
    ok := other == None;
  }

  // ---------------------------------------------------------------- the roam machine

  /** What hostapd is told about a client whose machine acts. */
  function Emits(p: Ptr, act: Act): seq<Event> {
    match act
    case Nothing => []
    case Trigger => [ScanTriggered(p)]
    case Notify => [Notified(p)]
    case Deauth => [Kicked(p)]
  }

  method KickClient(r: Registry, p: Ptr)
    requires r.Valid() && p in r.table.info
    modifies r`table, r`trace
    ensures r.Valid() && r.trace == old(r.trace) + [Kicked(p)]
    ensures var x := old(r.table);
      r.table == x.(info := x.info[p := Gone(r.currentTime, x.info[p])])
  {
    hide Indexed, ReportsOwned, Represents, Unhurried;
    r.trace := r.trace + [Kicked(p)];
    WriteKeepsValid(r, p, Gone(r.currentTime, r.table.info[p]));
    r.Write(p, Gone(r.currentTime, r.table.info[p]));
  }

  /** An entry's links and times are not touched by the policy. */
  lemma WriteKeepsValid(r: Registry, p: Ptr, si: StaInfo)
    requires r.Valid() && p in r.table.info
    requires si.node == r.table.info[p].node && si.seen == r.table.info[p].seen
    requires si.hearing == r.table.info[p].hearing
    ensures Unhurried(r.cfg, r.locals, r.currentTime, r.table.info[p := si], r.tq.pending)
    ensures forall br :: br in si.hearing.reports ==> br.owner == p
  {
  }

  method RoamSetState(r: Registry, p: Ptr, state: State)
    requires r.Valid() && p in r.table.info
    modifies r`table
    ensures r.Valid()
    ensures var x := old(r.table);
      r.table == x.(info := x.info[p := x.info[p].(roam := SetState(r.currentTime, x.info[p].roam, state))])
  {
    hide Indexed, ReportsOwned, Represents, Unhurried;
    var si := r.table.info[p];
    var roam := si.roam.(event := r.currentTime);
    if si.roam.state == state && state == Idle {
      roam := roam.(tries := 0);
    } else if si.roam.state == state {
      roam := roam.(tries := (roam.tries + 1) % U8);
    } else {
      roam := roam.(tries := 0);
    }
    roam := roam.(state := state);
    WriteKeepsValid(r, p, si.(roam := roam));
    r.Write(p, si.(roam := roam));
  }

  /** From `x` to `y` the entry `p` took one step of the machine, and the search may have added entries. */
  ghost predicate Advanced(w: World, candidate: bool, x: Table, y: Table, p: Ptr, act: Act)
    requires p in x.info && x.info[p].node in w.nodes
  {
    var si := x.info[p];
    var strong := si.signal > SnrToSignal(w.nodes[si.node], w.cfg.roamTriggerSnr);
    var (roam, a) := TriggerSm(w.cfg, w.now, strong, candidate, si.roam);
    act == a && Became(x, y, p, si.(roam := roam, connected := if a == Deauth then 0 else si.connected))
  }

  /** From `x` to `y` the entry `p` became `si`, and a search may have added entries of its station. */
  ghost predicate Became(x: Table, y: Table, p: Ptr, si: StaInfo)
    requires p in x.info
  {
    Grown(x.(info := x.info[p := si]), y, x.info[p].node) && OnlyStation(x, y, x.info[p].sta)
  }

  lemma GrownThenWritten(x: Table, y: Table, p: Ptr, si: StaInfo)
    requires p in x.info && Grown(x, y, x.info[p].node) && OnlyStation(x, y, x.info[p].sta)
    ensures Became(x, y.(info := y.info[p := si]), p, si)
  {
  }

  lemma StaysSame(x: Table, p: Ptr)
    requires p in x.info
    ensures Became(x, x, p, x.info[p]) && Grown(x, x, x.info[p].node) && OnlyStation(x, x, x.info[p].sta)
  {
    assert x.(info := x.info[p := x.info[p]]) == x;
  }

  method SmScan(r: Registry, p: Ptr) returns (act: Act)
    requires r.Valid() && p in r.table.info && r.table.info[p].roam.state == Scan
    requires r.table.info[p].node in r.nodes
    modifies r`table, r`trace
    ensures r.Valid() && r.trace == old(r.trace) + Emits(p, act)
    ensures Advanced(r.Now(), old(r.Candidate(p)) != NotFound, old(r.table), r.table, p, act)
  {
    hide Registry.Valid, Registry.Core, Became, Search, Grown, OnlyStation, Known, Indexed;
    KnownNow(r);
    act := Nothing;
    ghost var x := r.table;
    var roam := r.table.info[p].roam;
    if Since(r.currentTime, roam.event) < r.cfg.roamScanInterval {
      StaysSame(x, p);
      return;
    }
    var found := FindBetterCandidate(r, p);
    FoundIsThere(x, r.table, p);
    ghost var y := r.table;
    if found.Some? || roam.scanDone > roam.event {
      RoamSetState(r, p, ScanDone);
    } else if r.cfg.roamScanTries != 0 && roam.tries >= r.cfg.roamScanTries {
      RoamSetState(r, p, WaitKick);
    } else {
      r.trace := r.trace + [ScanTriggered(p)];
      act := Trigger;
      RoamSetState(r, p, Scan);
    }
    GrownThenWritten(x, y, p, r.table.info[p]);
  }

  method SmFound(r: Registry, p: Ptr) returns (act: Act)
    requires r.Valid() && p in r.table.info && r.table.info[p].roam.state in {Idle, ScanDone}
    requires r.table.info[p].node in r.nodes
    modifies r`table, r`trace
    ensures r.Valid() && r.trace == old(r.trace) + Emits(p, act)
    ensures Advanced(r.Now(), old(r.Candidate(p)) != NotFound, old(r.table), r.table, p, act)
  {
    hide Registry.Valid, Registry.Core, Became, Search, Grown, OnlyStation, Known, Indexed;
    KnownNow(r);
    act := Nothing;
    ghost var x := r.table;
    var roam := r.table.info[p].roam;
    if roam.state == ScanDone && Since(r.currentTime, roam.scanDone) > StaleAfter(r.cfg) {
      StaysSame(x, p);
      RoamSetState(r, p, Scan);
      GrownThenWritten(x, x, p, r.table.info[p]);
      return;
    }
    var found := FindBetterCandidate(r, p);
    FoundIsThere(x, r.table, p);
    ghost var y := r.table;
    if roam.state == Idle {
      RoamSetState(r, p, if found.Some? then ScanDone else Scan);
    } else if found.Some? {
      RoamSetState(r, p, WaitKick);
    }
    GrownThenWritten(x, y, p, r.table.info[p]);
    assert y.info[p := y.info[p]] == y.info;
  }

  lemma FoundIsThere(x: Table, y: Table, p: Ptr)
    requires p in x.info && Grown(x, y, x.info[p].node)
    ensures p in y.info && y.info[p] == x.info[p]
  {
  }

  method SmLeave(r: Registry, p: Ptr) returns (act: Act)
    requires r.Valid() && p in r.table.info && r.table.info[p].roam.state in {WaitKick, NotifyKick, Kick}
    requires r.table.info[p].node in r.nodes
    modifies r`table, r`trace
    ensures r.Valid() && r.trace == old(r.trace) + Emits(p, act)
    ensures Advanced(r.Now(), old(r.Candidate(p)) != NotFound, old(r.table), r.table, p, act)
  {
    hide Registry.Valid, Registry.Core, Became, Search, Grown, OnlyStation, Known, Indexed;
    KnownNow(r);
    act := Nothing;
    ghost var x := r.table;
    var si := r.table.info[p];
    StaysSame(x, p);
    match si.roam.state {
      case WaitKick =>
        if si.signal > SnrToSignal(r.nodes[si.node], r.cfg.roamTriggerSnr) {
          return;
        }
        RoamSetState(r, p, NotifyKick);
        r.trace := r.trace + [Notified(p)];
        act := Notify;
      case NotifyKick =>
        if Since(r.currentTime, si.roam.event) < KickDelay(r.cfg) {
          return;
        }
        RoamSetState(r, p, Kick);
      case Kick =>
        KickClient(r, p);
        RoamSetState(r, p, Idle);
        act := Deauth;
    }
    GrownThenWritten(x, x, p, r.table.info[p]);
    assert r.table == x.(info := x.info[p := r.table.info[p]]);
  }

  /** One step of the roam machine for an entry. */
  method RoamTriggerSm(r: Registry, p: Ptr) returns (act: Act)
    requires r.Valid() && p in r.table.info && r.table.info[p].node in r.nodes
    modifies r`table, r`trace
    ensures r.Valid() && r.trace == old(r.trace) + Emits(p, act)
    ensures Advanced(r.Now(), old(r.Candidate(p)) != NotFound, old(r.table), r.table, p, act)
  {
    match r.table.info[p].roam.state {
      case Scan => act := SmScan(r, p);
      case Idle => act := SmFound(r, p);
      case ScanDone => act := SmFound(r, p);
      case _ => act := SmLeave(r, p);
    }
  }

  // ---------------------------------------------------------------- the roam pass

  /** The roam pass has looked at the first `n` entries of `list`, none of which was kicked before the last. */
  ghost predicate RoamPass(w: World, x: Table, y: Table, list: seq<Ptr>, n: nat)
    requires Known(w, x.info) && Indexed(x) && n <= |list| && forall p :: p in list ==> p in x.info
  {
    && x.info.Keys <= y.info.Keys
    && (forall j :: 0 <= j < n ==> y.info[list[j]] == Looked(w, x, list[j]))
    && (forall p :: p in x.info && p !in list[..n] ==> y.info[p] == x.info[p])
    && (forall p :: p in y.info && p !in x.info ==> Blank(y.info[p]))
  }

  /** What hostapd is told by a pass. */
  function PassEvents(w: World, x: Table, list: seq<Ptr>): seq<Event>
    requires Known(w, x.info) && Indexed(x) && forall p :: p in list ==> p in x.info
  {
    if list == [] then []
    else
      var p := list[|list| - 1];
      PassEvents(w, x, list[..|list| - 1]) + Emits(p, Look(w, x, p).1)
  }

  /** The messages about the clients looked at first come first. */
  lemma {:induction false} EventsInOrder(w: World, x: Table, list: seq<Ptr>, n: nat)
    requires Known(w, x.info) && Indexed(x) && (forall p :: p in list ==> p in x.info) && n < |list|
    ensures PassEvents(w, x, list[..n]) + Emits(list[n], Look(w, x, list[n]).1) <= PassEvents(w, x, list)
  {
    hide Known, Indexed, Look, Emits;
    if n == |list| - 1 {
      assert PassEvents(w, x, list) == PassEvents(w, x, list[..n]) + Emits(list[n], Look(w, x, list[n]).1);
    } else {
      var front := list[..|list| - 1];
      EventsInOrder(w, x, front, n);
      assert front[..n] == list[..n];
    }
  }

  /** Same node list, and station lists of the entries of `todo` untouched. */
  ghost predicate Untouched(x: Table, y: Table, ln: NodeId, todo: seq<Ptr>) {
    && ln in x.lists && ln in y.lists && y.lists[ln] == x.lists[ln]
    && y.stations.Keys == x.stations.Keys && y.lists.Keys == x.lists.Keys
    && (forall p :: p in todo && p in x.info && x.info[p].sta in x.stations ==>
          y.stations[x.info[p].sta] == x.stations[x.info[p].sta])
  }

  /** An entry still to be looked at is searched for with the same outcome as before the pass. */
  lemma NotYetLooked(w: World, x: Table, y: Table, ln: NodeId, list: seq<Ptr>, i: nat)
    requires Known(w, x.info) && Indexed(x) && Known(w, y.info) && Indexed(y)
    requires ln in x.lists && list == x.lists[ln] && i < |list|
    requires forall p :: p in list ==> p in x.info
    requires RoamPass(w, x, y, list, i) && Untouched(x, y, ln, list[i..])
    ensures list[i] in y.info && y.info[list[i]] == x.info[list[i]]
    ensures Search(w, y, list[i]) == Search(w, x, list[i])
  {
    var p := list[i];
    NodeMembers(x, ln);
    EntryListed(x, p);
    var a := x.info[p].sta;
    StationMembers(x, a);
    assert p in list[i..];
    forall j | 0 <= j < i
      ensures list[j] !in x.stations[a]
    {
      OneStationEach(x, list[j], p);
    }
    SearchIsLocal(w, x, y, p);
  }

  lemma LookIsStable(w: World, x: Table, y: Table, p: Ptr)
    requires Known(w, x.info) && Indexed(x) && Known(w, y.info) && Indexed(y) && p in x.info && p in y.info
    requires y.info[p] == x.info[p] && Search(w, y, p) == Search(w, x, p)
    ensures Look(w, y, p) == Look(w, x, p) && Looked(w, y, p) == Looked(w, x, p)
    ensures p in x.info && x.info[p].node in w.nodes
  {
  }

  lemma StepOfPass(w: World, x: Table, y: Table, z: Table, ln: NodeId, list: seq<Ptr>, i: nat)
    requires Known(w, x.info) && Indexed(x) && Indexed(y)
    requires ln in x.lists && list == x.lists[ln] && i < |list|
    requires forall p :: p in list ==> p in x.info
    requires RoamPass(w, x, y, list, i) && Untouched(x, y, ln, list[i..])
    requires list[i] in y.info && y.info[list[i]] == x.info[list[i]]
    requires Became(y, z, list[i], Looked(w, x, list[i]))
    ensures RoamPass(w, x, z, list, i + 1) && Untouched(x, z, ln, list[i + 1..])
  {
    NodeMembers(x, ln);
    LookedFacts(w, x, list[i]);
    assert y.info[list[i]].node == ln;
    hide Looked, Known, Indexed;
    PassGrows(w, x, y, z, ln, list, i);
    RestUntouched(x, y, z, ln, list, i, Looked(w, x, list[i]));
  }

  lemma LookedFacts(w: World, x: Table, p: Ptr)
    requires Known(w, x.info) && Indexed(x) && p in x.info
    ensures Looked(w, x, p).node == x.info[p].node && Looked(w, x, p).sta == x.info[p].sta
  {
  }

  lemma PassGrows(w: World, x: Table, y: Table, z: Table, ln: NodeId, list: seq<Ptr>, i: nat)
    requires Known(w, x.info) && Indexed(x) && NoDup(list) && i < |list| && forall p :: p in list ==> p in x.info
    requires RoamPass(w, x, y, list, i)
    requires list[i] in y.info && Became(y, z, list[i], Looked(w, x, list[i]))
    ensures RoamPass(w, x, z, list, i + 1)
  {
    hide Looked, Known, Indexed, OnlyStation, NoDup;
    NextOfList(list, i);
    forall j | 0 <= j < i
      ensures list[j] != list[i]
    {
      assert list[j] in list[..i];
    }
  }

  lemma NextOfList(list: seq<Ptr>, i: nat)
    requires i < |list| && NoDup(list)
    ensures list[i] !in list[..i] && list[i] in list[..i + 1]
    ensures forall q :: q != list[i] ==> (q in list[..i + 1] <==> q in list[..i])
  {
    assert list[..i + 1] == list[..i] + [list[i]];
  }

  lemma RestUntouched(x: Table, y: Table, z: Table, ln: NodeId, list: seq<Ptr>, i: nat, si: StaInfo)
    requires Indexed(x) && ln in x.lists && list == x.lists[ln] && i < |list|
    requires forall p :: p in list ==> p in x.info && x.info[p].node == ln
    requires Untouched(x, y, ln, list[i..]) && list[i] in y.info && y.info[list[i]].sta == x.info[list[i]].sta
    requires y.info[list[i]].node == ln && Became(y, z, list[i], si)
    ensures Untouched(x, z, ln, list[i + 1..])
  {
    NodeMembers(x, ln);
    forall p | p in list[i + 1..] && p in x.info && x.info[p].sta in x.stations
      ensures z.stations[x.info[p].sta] == x.stations[x.info[p].sta]
    {
      assert p in list[i..];
      OneStationEach(x, p, list[i]);
    }
  }

  lemma PassBegins(w: World, x: Table, ln: NodeId, list: seq<Ptr>)
    requires Known(w, x.info) && Indexed(x) && ln in x.lists && list == x.lists[ln]
    requires forall p :: p in list ==> p in x.info
    ensures RoamPass(w, x, x, list, 0) && Untouched(x, x, ln, list) && Untouched(x, x, ln, []) && list[0..] == list
    ensures PassEvents(w, x, list[..0]) == []
  {
  }

  lemma EventsOfStep(w: World, x: Table, list: seq<Ptr>, n: nat)
    requires Known(w, x.info) && Indexed(x) && n < |list| && forall p :: p in list ==> p in x.info
    ensures PassEvents(w, x, list[..n + 1]) == PassEvents(w, x, list[..n]) + Emits(list[n], Look(w, x, list[n]).1)
  {
    assert list[..n + 1][..n] == list[..n];
  }

  /** None of the first `n` entries is kicked. */
  ghost predicate Quiet(w: World, x: Table, list: seq<Ptr>, n: int)
    requires Known(w, x.info) && Indexed(x) && n <= |list| && forall p :: p in list ==> p in x.info
  {
    forall j :: 0 <= j < n ==> Look(w, x, list[j]).1 != Deauth
  }

  /** The whole pass: every entry up to the first one kicked, or every entry, is looked at once. */
  ghost predicate RoamPassed(w: World, x: Table, y: Table, list: seq<Ptr>, n: nat, kicked: Option<Ptr>)
    requires Known(w, x.info) && Indexed(x) && n <= |list| && forall p :: p in list ==> p in x.info
  {
    && RoamPass(w, x, y, list, n)
    && Quiet(w, x, list, n - 1)
    && (n < |list| ==> kicked.Some?)
    && (if n > 0 && Look(w, x, list[n - 1]).1 == Deauth then kicked == Some(list[n - 1]) else kicked == None)
  }

  lemma PassEnds(w: World, x: Table, y: Table, list: seq<Ptr>, n: nat)
    requires Known(w, x.info) && Indexed(x) && n <= |list| && forall p :: p in list ==> p in x.info
    requires RoamPass(w, x, y, list, n)
    ensures n == |list| && Quiet(w, x, list, n) ==> RoamPassed(w, x, y, list, n, None)
    ensures n > 0 && Quiet(w, x, list, n - 1) && Look(w, x, list[n - 1]).1 == Deauth ==>
      RoamPassed(w, x, y, list, n, Some(list[n - 1]))
    ensures n > 0 && Quiet(w, x, list, n - 1) && Look(w, x, list[n - 1]).1 != Deauth ==> Quiet(w, x, list, n)
    ensures n == 0 ==> Quiet(w, x, list, n)
  {
    hide RoamPass, Look, Known, Indexed;
  }

  lemma StillUntouched(x: Table, y: Table, ln: NodeId, todo: seq<Ptr>)
    requires Untouched(x, y, ln, todo)
    ensures Untouched(x, y, ln, [])
  {
  }

  /** One round of the loop. */
  method LookNext(r: Registry, ln: NodeId, ghost x: Table, list: seq<Ptr>, n: nat, minSignal: int) returns (act: Act)
    requires r.Valid() && ln in r.nodes && minSignal == SnrToSignal(r.nodes[ln], RoamScanSnr(r.cfg))
    requires Known(r.Now(), x.info) && Indexed(x) && ln in x.lists && list == x.lists[ln] && n < |list|
    requires forall p :: p in list ==> p in x.info && x.info[p].node == ln
    requires RoamPass(r.Now(), x, r.table, list, n) && Untouched(x, r.table, ln, list[n..])
    modifies r`table, r`trace
    ensures r.Valid() && act == Look(r.Now(), x, list[n]).1
    ensures RoamPass(r.Now(), x, r.table, list, n + 1) && Untouched(x, r.table, ln, list[n + 1..])
    ensures r.trace == old(r.trace) + Emits(list[n], act)
  {
    hide Indexed, ReportsOwned, Represents, Unhurried, Inhabited, RoamPass, Untouched, Looked, Look, Known, Became;
    ghost var w, y := r.Now(), r.table;
    r.EntriesAreKnown();
    NotYetLooked(w, x, y, ln, list, n);
    LookIsStable(w, x, y, list[n]);
    act := LookAt(r, list[n], minSignal);
    StepOfPass(w, x, y, r.table, ln, list, n);
  }

  /** The loop over the clients of a local node, until one is kicked. */
  method RoamLoop(r: Registry, ln: NodeId, minSignal: int) returns (n: nat, kicked: Option<Ptr>)
    requires r.Valid() && ln in r.nodes && minSignal == SnrToSignal(r.nodes[ln], RoamScanSnr(r.cfg))
    requires Known(r.Now(), r.table.info) && ln in r.table.lists && forall p :: p in r.table.lists[ln] ==> p in r.table.info
    modifies r`table, r`trace
    ensures r.Valid() && n <= |old(r.table).lists[ln]| && Untouched(old(r.table), r.table, ln, [])
    ensures RoamPassed(r.Now(), old(r.table), r.table, old(r.table).lists[ln], n, kicked)
    ensures r.trace == old(r.trace) + PassEvents(r.Now(), old(r.table), old(r.table).lists[ln][..n])
  {
    hide Registry.Valid, Registry.Core, Indexed, RoamPass, RoamPassed, Untouched, Quiet, Looked, Look, PassEvents;
    hide Known, Became, Emits;
    n, kicked := 0, None;
    ghost var w, x := r.Now(), r.table;
    KnownNow(r);
    var list := r.table.lists[ln];
    NodeMembers(x, ln);
    PassBegins(w, x, ln, list);
    PassEnds(w, x, x, list, 0);
    while n < |list|
      invariant r.Valid() && r.Now() == w && n <= |list|
      invariant RoamPass(w, x, r.table, list, n) && Quiet(w, x, list, n)
      invariant Untouched(x, r.table, ln, list[n..])
      invariant r.trace == old(r.trace) + PassEvents(w, x, list[..n])
    {
      var p := list[n];
      var act := LookNext(r, ln, x, list, n, minSignal);
      EventsOfStep(w, x, list, n);
      n := n + 1;
      PassEnds(w, x, r.table, list, n);
      StillUntouched(x, r.table, ln, list[n..]);
      if act == Deauth {
        kicked := Some(p);
        return;
      }
    }
    PassEnds(w, x, r.table, list, n);
    StillUntouched(x, r.table, ln, list[n..]);
  }

  /** The roam pass of a local node's tick. */
  method RoamCheck(r: Registry, ln: NodeId, now: nat) returns (n: nat, kicked: Option<Ptr>)
    requires r.Valid() && ln in r.nodes && r.currentTime <= now
    modifies r`table, r`trace, r`currentTime
    ensures r.Valid() && ln in old(r.table).lists && n <= |old(r.table).lists[ln]|
    ensures Untouched(old(r.table), r.table, ln, [])
    ensures RoamScanSnr(r.cfg) == 0 ==>
      n == 0 && kicked == None && r.table == old(r.table) && r.trace == old(r.trace) && r.currentTime == old(r.currentTime)
    ensures Known(r.Now(), old(r.table).info) && forall p :: p in old(r.table).lists[ln] ==> p in old(r.table).info
    ensures RoamScanSnr(r.cfg) != 0 ==>
      && r.currentTime == now
      && RoamPassed(r.Now(), old(r.table), r.table, old(r.table).lists[ln], n, kicked)
      && r.trace == old(r.trace) + PassEvents(r.Now(), old(r.table), old(r.table).lists[ln][..n])
  {
    hide Indexed, ReportsOwned, Represents, Unhurried, Inhabited, RoamPass, RoamPassed, Untouched, PassEvents, Known;
    n, kicked := 0, None;
    NodeMembers(r.table, ln);
    r.EntriesAreKnown();
    PassBegins(r.Now(), r.table, ln, r.table.lists[ln]);
    if r.cfg.roamScanSnr == 0 && r.cfg.roamTriggerSnr == 0 {
      return;
    }
    var snr := if r.cfg.roamScanSnr != 0 then r.cfg.roamScanSnr else r.cfg.roamTriggerSnr;
    r.UpdateTime(now);
    r.EntriesAreKnown();
    n, kicked := RoamLoop(r, ln, SnrToSignal(r.nodes[ln], snr));
  }

  /** The roam pass looks at one entry: back to idle if it is not fit, one step otherwise. */
  method LookAt(r: Registry, p: Ptr, minSignal: int) returns (act: Act)
    requires r.Valid() && p in r.table.info && r.table.info[p].node in r.nodes
    requires minSignal == SnrToSignal(r.nodes[r.table.info[p].node], RoamScanSnr(r.cfg))
    modifies r`table, r`trace
    ensures r.Valid() && r.trace == old(r.trace) + Emits(p, act)
    ensures Known(r.Now(), old(r.table).info) && Indexed(old(r.table))
    ensures act == Look(r.Now(), old(r.table), p).1
    ensures Became(old(r.table), r.table, p, Looked(r.Now(), old(r.table), p))
  {
    hide Indexed, ReportsOwned, Represents, Unhurried, Inhabited, Grown, OnlyStation;
    r.EntriesAreKnown();
    ghost var x := r.table;
    var si := r.table.info[p];
    if !Kickable(r.cfg, si) || si.signal >= minSignal || Since(r.currentTime, si.roam.kick) < r.cfg.roamTriggerInterval {
      StaysSame(x, p);
      RoamSetState(r, p, Idle);
      GrownThenWritten(x, x, p, r.table.info[p]);
      act := Nothing;
    } else {
      act := RoamTriggerSm(r, p);
    }
  }

  /** The tables and nodes are those of a state with the node `ln`, whose list holds its entries. */
  ghost predicate Serving(w: World, ln: NodeId, x: Table) {
    && Sane(w.cfg) && Known(w, x.info) && Indexed(x) && ln in w.nodes
    && ln in x.lists && forall p :: p in x.lists[ln] ==> p in x.info && x.info[p].node == ln
  }

  lemma ServingNow(r: Registry, ln: NodeId)
    requires r.Valid() && ln in r.nodes
    ensures Serving(r.Now(), ln, r.table)
  {
    KnownNow(r);
    NodeMembers(r.table, ln);
  }

  /** The roam pass, if it is switched on: the first `n` clients were looked at, and hostapd was told so much. */
  ghost predicate Roamed(w: World, ln: NodeId, x: Table, y: Table, n: nat, kicked: Option<Ptr>, told: seq<Event>)
    requires Serving(w, ln, x)
  {
    && n <= |x.lists[ln]|
    && if RoamScanSnr(w.cfg) == 0 then n == 0 && kicked == None && y == x && told == []
       else RoamPassed(w, x, y, x.lists[ln], n, kicked) && told == PassEvents(w, x, x.lists[ln][..n])
  }

  // ---------------------------------------------------------------- the signal pass

  function Reported(kick: Option<Ptr>): seq<Event> {
    if kick.Some? then [Kicked(kick.value)] else []
  }

  predicate TooWeak(w: World, si: StaInfo)
    requires si.node in w.nodes
  {
    Kickable(w.cfg, si) && si.signal < SnrToSignal(w.nodes[si.node], w.cfg.minSnr)
  }

  method KickAndCount(r: Registry, p: Ptr)
    requires r.Valid() && p in r.table.info
    modifies r`table, r`trace
    ensures r.Valid() && r.trace == old(r.trace) + [Kicked(p)]
    ensures var x := old(r.table);
      r.table == x.(info := x.info[p := GoneAndCounted(r.currentTime, x.info[p])])
  {
    hide Indexed, ReportsOwned, Represents, Unhurried;
    var si := r.table.info[p];
    WriteKeepsValid(r, p, si.(kickCount := si.kickCount + 1));
    r.Write(p, si.(kickCount := si.kickCount + 1));
    KickClient(r, p);
  }

  /** The signal pass: the first client of the node that is too weak is kicked, or nobody if there is none. */
  ghost predicate Weeded(w: World, ln: NodeId, x: Table, y: Table, kicked: Option<Ptr>)
    requires Serving(w, ln, x)
  {
    if kicked.None? then
      && y == x
      && (w.cfg.minSnr != 0 ==> forall p :: p in x.lists[ln] ==> !TooWeak(w, x.info[p]))
    else
      var p := kicked.value;
      && w.cfg.minSnr != 0 && p in x.lists[ln] && TooWeak(w, x.info[p])
      && (exists i :: 0 <= i < |x.lists[ln]| && x.lists[ln][i] == p
            && forall j :: 0 <= j < i ==> !TooWeak(w, x.info[x.lists[ln][j]]))
      && y == x.(info := x.info[p := GoneAndCounted(w.now, x.info[p])])
  }

  /** One client is kicked and that is noted and counted; all other entries are as before. */
  ghost predicate KickedOnly(x: Table, y: Table, p: Ptr, now: nat) {
    && p in x.info && p in y.info && y.info[p].connected == 0 && y.info[p].kickCount == x.info[p].kickCount + 1
    && y.info[p] == x.info[p].(connected := 0, kickCount := y.info[p].kickCount, roam := x.info[p].roam.(kick := now))
    && forall q :: q in x.info && q != p ==> q in y.info && y.info[q] == x.info[q]
  }

  /** In numbers: connected, idle, and weaker than the noise and the configured ratio allow. */
  ghost predicate IdleAndWeak(cfg: Config, node: Node, si: StaInfo) {
    && si.connected != 0 && si.activeBits < cfg.kickClientActiveBits
    && si.signal < if cfg.minSnr < 0 then cfg.minSnr else cfg.minSnr + if node.noise == 0 then -95 else node.noise
  }

  /** Exactly when the signal pass kicks, and whom. */
  lemma WeededInNumbers(w: World, ln: NodeId, x: Table, y: Table, kicked: Option<Ptr>)
    requires Serving(w, ln, x) && Weeded(w, ln, x, y, kicked)
    ensures kicked.Some? <==> w.cfg.minSnr != 0 && exists p :: p in x.lists[ln] && IdleAndWeak(w.cfg, w.nodes[ln], x.info[p])
    ensures kicked.Some? ==> var p := kicked.value;
      && p in x.lists[ln] && IdleAndWeak(w.cfg, w.nodes[ln], x.info[p])
      && exists i :: 0 <= i < |x.lists[ln]| && x.lists[ln][i] == p
           && forall j :: 0 <= j < i ==> !IdleAndWeak(w.cfg, w.nodes[ln], x.info[x.lists[ln][j]])
    ensures kicked.Some? ==> KickedOnly(x, y, kicked.value, w.now)
  {
    hide Known, Indexed;
    assert forall p :: p in x.lists[ln] ==> (TooWeak(w, x.info[p]) <==> IdleAndWeak(w.cfg, w.nodes[ln], x.info[p]));
  }

  /** Kick the first client of the node that is too weak, if there is one. */
  method SnrKick(r: Registry, ln: NodeId) returns (kicked: Option<Ptr>)
    requires r.Valid() && ln in r.nodes
    modifies r`table, r`trace
    ensures r.Valid()
    ensures Serving(r.Now(), ln, old(r.table))
    ensures Weeded(r.Now(), ln, old(r.table), r.table, kicked) && r.trace == old(r.trace) + Reported(kicked)
    ensures r.cfg.minSnr != 0 && kicked.None? ==>
      forall p :: p in old(r.table).lists[ln] ==> !IdleAndWeak(r.cfg, r.nodes[ln], old(r.table).info[p])
    ensures kicked.Some? ==> r.cfg.minSnr != 0 && kicked.value in old(r.table).lists[ln]
                             && IdleAndWeak(r.cfg, r.nodes[ln], old(r.table).info[kicked.value])
  {
    hide Indexed, ReportsOwned, Represents, Unhurried;
    kicked := None;
    ServingNow(r, ln);
    if r.cfg.minSnr == 0 {
      return;
    }
    var minSignal := SnrToSignal(r.nodes[ln], r.cfg.minSnr);
    var list := r.table.lists[ln];
    var i := 0;
    while i < |list|
      invariant 0 <= i <= |list|
      invariant forall j :: 0 <= j < i ==> !TooWeak(r.Now(), r.table.info[list[j]])
    {
      var si := r.table.info[list[i]];
      if si.connected != 0 && Inactive(r.cfg, si) && si.signal < minSignal {
        KickAndCount(r, list[i]);
        return Some(list[i]);
      }
      i := i + 1;
    }
  }

  // ---------------------------------------------------------------- the load pass

  /** The clients among `list` the load pass may kick, and those of them with a better access point. */
  ghost function Pool(w: World, x: Table, list: seq<Ptr>): set<Ptr>
    requires forall p :: p in list ==> p in x.info
  {
    set p | p in list && Kickable(w.cfg, x.info[p])
  }

  ghost function PoolWithCandidate(w: World, x: Table, list: seq<Ptr>): set<Ptr>
    requires Known(w, x.info) && Indexed(x) && forall p :: p in list ==> p in x.info
  {
    set p | p in list && Kickable(w.cfg, x.info[p]) && Search(w, x, p) != NotFound
  }

  lemma GrownTwice(x: Table, y: Table, z: Table, node: NodeId)
    requires Grown(x, y, node) && Grown(y, z, node)
    ensures Grown(x, z, node)
  {
  }

  /** After searching for the i-th client, the searches for the later ones are as before. */
  lemma LaterSearches(w: World, x: Table, y: Table, ln: NodeId, list: seq<Ptr>, i: nat)
    requires Known(w, x.info) && Indexed(x) && Known(w, y.info) && Indexed(y)
    requires ln in x.lists && list == x.lists[ln] && i < |list|
    requires forall p :: p in list ==> p in x.info
    requires Grown(x, y, ln) && Untouched(x, y, ln, list[i..])
    ensures list[i] in y.info && y.info[list[i]] == x.info[list[i]]
    ensures Search(w, y, list[i]) == Search(w, x, list[i])
  {
    var p := list[i];
    assert p in list[i..];
    EntryListed(x, p);
    SearchIsLocal(w, x, y, p);
  }

  lemma SearchTouchesOne(x: Table, y: Table, z: Table, ln: NodeId, list: seq<Ptr>, i: nat)
    requires Indexed(x) && ln in x.lists && list == x.lists[ln] && i < |list|
    requires forall p :: p in list ==> p in x.info && x.info[p].node == ln
    requires Grown(x, y, ln) && Untouched(x, y, ln, list[i..])
    requires Grown(y, z, ln) && OnlyStation(y, z, x.info[list[i]].sta)
    ensures Untouched(x, z, ln, list[i + 1..])
  {
    NodeMembers(x, ln);
    forall p | p in list[i + 1..] && p in x.info && x.info[p].sta in x.stations
      ensures z.stations[x.info[p].sta] == x.stations[x.info[p].sta]
    {
      assert p in list[i..];
      OneStationEach(x, p, list[i]);
    }
  }

  /** The client the load pass kicks: the best of the pool with a better access point, or else of the pool. */
  method PickLoadKick(r: Registry, ln: NodeId) returns (kick: Option<Ptr>)
    requires r.Valid() && ln in r.nodes
    modifies r`table
    ensures r.Valid() && Grown(old(r.table), r.table, ln)
    ensures ln in old(r.table).lists && Known(r.Now(), old(r.table).info)
    ensures forall p :: p in old(r.table).lists[ln] ==> p in old(r.table).info && old(r.table).info[p].node == ln
    ensures var (w, x, list) := (r.Now(), old(r.table), old(r.table).lists[ln]);
      var (pool, better) := (Pool(w, x, list), PoolWithCandidate(w, x, list));
      BestOf(x.info, list, if better != {} then better else pool, kick)
  {
    hide Indexed, ReportsOwned, Represents, Unhurried, Inhabited, Untouched, Known, Grown, OnlyStation, Search, Succession;
    ghost var w, x := r.Now(), r.table;
    var list := r.table.lists[ln];
    NodeMembers(x, ln);
    r.EntriesAreKnown();
    PassBegins(w, x, ln, list);
    GrownItself(x, ln);
    var kick1: Option<Ptr>, kick2: Option<Ptr> := None, None;
    var i := 0;
    while i < |list|
      invariant 0 <= i <= |list| && r.Valid() && r.Now() == w
      invariant Considered(w, x, r.table, ln, list, i, kick1, kick2)
    {
      kick1, kick2 := ConsiderForLoadKick(r, ln, x, list, i, kick1, kick2);
      i := i + 1;
    }
    assert list[..i] == list;
    kick := if kick2.Some? then kick2 else kick1;
    PoolsChosen(w, x, list, kick1, kick2);
  }

  /** The loop has taken in the first `i` clients: these are the best of them and of those with a candidate. */
  ghost predicate Considered(w: World, x: Table, y: Table, ln: NodeId, list: seq<Ptr>, i: nat,
                             kick1: Option<Ptr>, kick2: Option<Ptr>)
  {
    && Known(w, x.info) && Indexed(x) && ln in x.lists && list == x.lists[ln] && i <= |list|
    && (forall p :: p in list ==> p in x.info && x.info[p].node == ln)
    && Grown(x, y, ln) && Untouched(x, y, ln, list[i..])
    && BestOf(x.info, list[..i], Pool(w, x, list), kick1)
    && BestOf(x.info, list[..i], PoolWithCandidate(w, x, list), kick2)
  }

  lemma PoolsChosen(w: World, x: Table, list: seq<Ptr>, kick1: Option<Ptr>, kick2: Option<Ptr>)
    requires Known(w, x.info) && Indexed(x) && forall p :: p in list ==> p in x.info
    requires BestOf(x.info, list, Pool(w, x, list), kick1) && BestOf(x.info, list, PoolWithCandidate(w, x, list), kick2)
    ensures kick2.Some? <==> PoolWithCandidate(w, x, list) != {}
  {
    hide Known, Indexed, Search, BestOf;
    if kick2.Some? {
      BestIsUndominated(x.info, list, PoolWithCandidate(w, x, list), kick2.value);
    } else {
      assert forall p :: p in list ==> p !in PoolWithCandidate(w, x, list) by { NobodyBest(x.info, list,
                                                                                           PoolWithCandidate(w, x, list)); }
    }
  }

  lemma NobodyBest(info: map<Ptr, StaInfo>, list: seq<Ptr>, pool: set<Ptr>)
    requires (forall p :: p in list ==> p in info) && BestOf(info, list, pool, None)
    ensures forall p :: p in list ==> p !in pool
  {
  }

  /** One round of the loop: the running choices of both pools take in the i-th client. */
  method ConsiderForLoadKick(r: Registry, ln: NodeId, ghost x: Table, list: seq<Ptr>, i: nat,
                             kick1: Option<Ptr>, kick2: Option<Ptr>)
    returns (kick1': Option<Ptr>, kick2': Option<Ptr>)
    requires r.Valid() && i < |list|
    requires Considered(r.Now(), x, r.table, ln, list, i, kick1, kick2)
    modifies r`table
    ensures r.Valid()
    ensures Considered(r.Now(), x, r.table, ln, list, i + 1, kick1', kick2')
  {
    hide Registry.Valid, Registry.Core, Indexed, Untouched, Known, OnlyStation, Search, BestOf, Grown;
    KnownNow(r);
    kick1', kick2' := kick1, kick2;
    ghost var w, y := r.Now(), r.table;
    var p := list[i];
    LaterSearches(w, x, y, ln, list, i);
    SearchUntouched(x, y, ln, list, i);
    ChoicesAreThere(w, x, y, ln, list, i, kick1, kick2);
    ChoicesGrow(w, x, list, i, kick1, kick2);
    var si := r.table.info[p];
    if si.connected == 0 || !Inactive(r.cfg, si) {
      return;
    }
    if IsMoreKickable(if kick1.None? then None else Some(r.table.info[kick1.value]), si) {
      kick1' := Some(p);
    }
    var found := FindBetterCandidate(r, p);
    SearchTouchesOne(x, y, r.table, ln, list, i);
    GrownTwice(x, y, r.table, ln);
    ChoicesAreThere(w, x, r.table, ln, list, i, kick1, kick2);
    if found.None? {
      return;
    }
    if IsMoreKickable(if kick2.None? then None else Some(r.table.info[kick2.value]), si) {
      kick2' := Some(p);
    }
  }

  lemma ChoicesAreThere(w: World, x: Table, y: Table, ln: NodeId, list: seq<Ptr>, i: nat, kick1: Option<Ptr>,
                        kick2: Option<Ptr>)
    requires Known(w, x.info) && Indexed(x) && Grown(x, y, ln) && (forall p :: p in list ==> p in x.info) && i <= |list|
    requires BestOf(x.info, list[..i], Pool(w, x, list), kick1) && BestOf(x.info, list[..i], PoolWithCandidate(w, x, list),
                                                                          kick2)
    ensures kick1.Some? ==> kick1.value in x.info && kick1.value in y.info && y.info[kick1.value] == x.info[kick1.value]
    ensures kick2.Some? ==> kick2.value in x.info && kick2.value in y.info && y.info[kick2.value] == x.info[kick2.value]
    ensures forall p :: p in list ==> p in y.info && y.info[p] == x.info[p]
  {
    hide BestOf, Known, Indexed;
    if kick1.Some? { BestIsUndominated(x.info, list[..i], Pool(w, x, list), kick1.value); }
    if kick2.Some? { BestIsUndominated(x.info, list[..i], PoolWithCandidate(w, x, list), kick2.value); }
  }

  lemma ChoicesGrow(w: World, x: Table, list: seq<Ptr>, i: nat, kick1: Option<Ptr>, kick2: Option<Ptr>)
    requires Known(w, x.info) && Indexed(x) && (forall p :: p in list ==> p in x.info) && i < |list|
    requires BestOf(x.info, list[..i], Pool(w, x, list), kick1) && BestOf(x.info, list[..i], PoolWithCandidate(w, x, list),
                                                                          kick2)
    requires (kick1.Some? ==> kick1.value in x.info) && (kick2.Some? ==> kick2.value in x.info)
    ensures var (p, si) := (list[i], x.info[list[i]]);
      && BestOf(x.info, list[..i + 1], Pool(w, x, list),
                if Kickable(w.cfg, si) && IsMoreKickable(if kick1.None? then None else Some(x.info[kick1.value]), si)
                then Some(p) else kick1)
      && BestOf(x.info, list[..i + 1], PoolWithCandidate(w, x, list),
                if Kickable(w.cfg, si) && Search(w, x, p) != NotFound
                   && IsMoreKickable(if kick2.None? then None else Some(x.info[kick2.value]), si)
                then Some(p) else kick2)
  {
    hide BestOf, Known, Indexed, Search, IsMoreKickable;
    assert list[..i + 1] == list[..i] + [list[i]];
    ChoiceGrows(x.info, list[..i], Pool(w, x, list), kick1, list[i]);
    ChoiceGrows(x.info, list[..i], PoolWithCandidate(w, x, list), kick2, list[i]);
  }

  lemma SearchUntouched(x: Table, y: Table, ln: NodeId, list: seq<Ptr>, i: nat)
    requires i < |list| && Untouched(x, y, ln, list[i..])
    ensures Untouched(x, y, ln, list[i + 1..])
  {
    assert forall p :: p in list[i + 1..] ==> p in list[i..];
  }

  /**
    The load pass: if it goes ahead, the best of the pool is kicked and counted (or nobody if there is none);
    the searches may have made entries. The tick is counted in any case.
   */
  ghost predicate Unloaded(w: World, ln: NodeId, x: Table, y: Table, counts: map<NodeId, nat>, counts': map<NodeId,
                           nat>, kick: Option<Ptr>)
    requires Serving(w, ln, x) && ln in counts
  {
    var (node, list) := (w.nodes[ln], x.lists[ln]);
    var (pool, better) := (Pool(w, x, list), PoolWithCandidate(w, x, list));
    var (count, due) := CountLoad(w.cfg, node.load, counts[ln]);
    && counts' == (if LoadKicking(w.cfg) then counts[ln := count] else counts)
    && (if LoadKicking(w.cfg) && due && node.nAssoc >= w.cfg.loadKickMinClients
        then BestOf(x.info, list, if better != {} then better else pool, kick)
        else kick == None && y == x)
    && (kick.None? ==> Grown(x, y, ln))
    && (kick.Some? ==>
          && kick.value in x.info
          && Grown(x.(info := x.info[kick.value := GoneAndCounted(w.now, x.info[kick.value])]), y, ln))
  }

  /** The load pass: kick one client after the load has been too high for long enough. */
  method LoadKick(r: Registry, ln: NodeId) returns (kick: Option<Ptr>)
    requires r.Valid() && ln in r.loadThrCount && ln in r.nodes
    modifies r`table, r`trace, r`loadThrCount
    ensures r.Valid()
    ensures Serving(r.Now(), ln, old(r.table))
    ensures Unloaded(r.Now(), ln, old(r.table), r.table, old(r.loadThrCount), r.loadThrCount, kick)
    ensures r.trace == old(r.trace) + Reported(kick)
  {
    hide Registry.Valid, Registry.Core, Indexed, Known, Grown, OnlyStation, Search, BestOf;
    kick := None;
    KnownNow(r);
    ServingNow(r, ln);
    NodeMembers(r.table, ln);
    GrownItself(r.table, ln);
    if !LoadKicking(r.cfg) {
      return;
    }
    if r.nodes[ln].load < r.cfg.loadKickThreshold {
      SetLoadCount(r, ln, 0);
      return;
    }
    SetLoadCount(r, ln, r.loadThrCount[ln] + 1);
    if r.loadThrCount[ln] <= DelayTicks(r.cfg) {
      return;
    }
    SetLoadCount(r, ln, 0);
    if r.nodes[ln].nAssoc < r.cfg.loadKickMinClients {
      return;
    }
    ghost var x := r.table;
    kick := PickLoadKick(r, ln);
    if kick.None? {
      return;
    }
    ghost var y := r.table;
    BestIsThere(r.Now(), x, ln, kick);
    GrownThenCounted(x, y, ln, kick.value, r.currentTime);
    KickAndCount(r, kick.value);
  }

  /** The clients the load pass may choose among. */
  ghost predicate IdleClient(cfg: Config, si: StaInfo) {
    si.connected != 0 && si.activeBits < cfg.kickClientActiveBits
  }

  /** The tick is the last one of a delay at or above the load threshold. */
  ghost predicate LoadDue(cfg: Config, load: nat, count: nat)
    requires Sane(cfg)
  {
    && cfg.loadKickEnabled && cfg.loadKickThreshold != 0 && cfg.loadKickDelay != 0
    && cfg.loadKickThreshold <= load && DelayTicks(cfg) <= count
  }

  /** Could the load pass kick this client: idle, and with a better access point if any idle one has one? */
  ghost predicate InQuestion(w: World, x: Table, list: seq<Ptr>, p: Ptr)
    requires Known(w, x.info) && Indexed(x) && forall p :: p in list ==> p in x.info
  {
    && p in list && IdleClient(w.cfg, x.info[p])
    && (Search(w, x, p) == NotFound ==> forall q :: q in list && IdleClient(w.cfg, x.info[q]) ==> Search(w, x,
                                                                                                         q) == NotFound)
  }

  ghost function AllInQuestion(w: World, x: Table, list: seq<Ptr>): set<Ptr>
    requires Known(w, x.info) && Indexed(x) && forall p :: p in list ==> p in x.info
  {
    set q | q in list && InQuestion(w, x, list, q)
  }

  /**
    Exactly when the load pass kicks; and whom: the end of the chain that begins with the first client in
    question and goes on to the next that was kicked no more often and is weaker. So nobody in question was kicked
    no more often than that client and is weaker.
   */
  lemma UnloadedInNumbers(w: World, ln: NodeId, x: Table, y: Table, counts: map<NodeId, nat>, counts': map<NodeId, nat>,
                          kick: Option<Ptr>)
    requires Serving(w, ln, x) && ln in counts && Unloaded(w, ln, x, y, counts, counts', kick)
    ensures kick.Some?
       <==> && LoadDue(w.cfg, w.nodes[ln].load, counts[ln]) && w.cfg.loadKickMinClients <= w.nodes[ln].nAssoc
            && exists p :: p in x.lists[ln] && IdleClient(w.cfg, x.info[p])
    ensures kick.Some? ==> var (p, list) := (kick.value, x.lists[ln]);
      && InQuestion(w, x, list, p) && BestOf(x.info, list, AllInQuestion(w, x, list), kick)
      && forall q :: InQuestion(w, x, list, q) ==>
           x.info[p].kickCount < x.info[q].kickCount || x.info[p].signal <= x.info[q].signal
    ensures kick.Some? ==> KickedOnly(x, y, kick.value, w.now)
  {
    if kick.Some? {
      CountedAlone(x, y, ln, kick.value, w.now);
    }
    hide Search, Known, Indexed, Grown, DelayTicks, KickedOnly, BestOf, InQuestion, Pool, PoolWithCandidate;
    if LoadDue(w.cfg, w.nodes[ln].load, counts[ln]) && w.cfg.loadKickMinClients <= w.nodes[ln].nAssoc {
      ChoiceInNumbers(w, x, x.lists[ln], kick);
    }
  }

  lemma ChoiceInNumbers(w: World, x: Table, list: seq<Ptr>, kick: Option<Ptr>)
    requires Known(w, x.info) && Indexed(x) && forall p :: p in list ==> p in x.info
    requires var (pool, better) := (Pool(w, x, list), PoolWithCandidate(w, x, list));
      BestOf(x.info, list, if better != {} then better else pool, kick)
    ensures kick.Some? <==> exists p :: p in list && IdleClient(w.cfg, x.info[p])
    ensures BestOf(x.info, list, AllInQuestion(w, x, list), kick)
    ensures kick.Some? ==> var p := kick.value;
      && InQuestion(w, x, list, p)
      && forall q :: InQuestion(w, x, list, q) ==>
           x.info[p].kickCount < x.info[q].kickCount || x.info[p].signal <= x.info[q].signal
  {
    PoolInQuestion(w, x, list);
    hide Search, Known, Indexed, BestOf;
    if kick.Some? {
      BestIsUndominated(x.info, list, AllInQuestion(w, x, list), kick.value);
    } else {
      NobodyBest(x.info, list, AllInQuestion(w, x, list));
      NobodyInQuestion(w, x, list);
    }
  }

  lemma PoolInQuestion(w: World, x: Table, list: seq<Ptr>)
    requires Known(w, x.info) && Indexed(x) && forall p :: p in list ==> p in x.info
    ensures AllInQuestion(w, x, list)
         == if PoolWithCandidate(w, x, list) != {} then PoolWithCandidate(w, x, list) else Pool(w, x, list)
  {
    hide Search, Known, Indexed;
    if PoolWithCandidate(w, x, list) != {} {
      var q :| q in PoolWithCandidate(w, x, list);
    }
    assert forall q :: q in list && IdleClient(w.cfg, x.info[q]) ==>
      Search(w, x, q) == NotFound || q in PoolWithCandidate(w, x, list);
  }

  lemma NobodyInQuestion(w: World, x: Table, list: seq<Ptr>)
    requires Known(w, x.info) && Indexed(x) && forall p :: p in list ==> p in x.info
    requires forall p :: p in list ==> !InQuestion(w, x, list, p)
    ensures forall p :: p in list ==> !IdleClient(w.cfg, x.info[p])
  {
    hide Search, Known, Indexed;
  }

  lemma CountedAlone(x: Table, y: Table, ln: NodeId, p: Ptr, now: nat)
    requires p in x.info && Grown(x.(info := x.info[p := GoneAndCounted(now, x.info[p])]), y, ln)
    ensures KickedOnly(x, y, p, now)
  {
  }

  method SetLoadCount(r: Registry, ln: NodeId, count: nat)
    requires r.Valid() && ln in r.loadThrCount
    modifies r`loadThrCount
    ensures r.Valid() && r.loadThrCount == old(r.loadThrCount)[ln := count]
  {
    r.loadThrCount := r.loadThrCount[ln := count];
    assert r.loadThrCount.Keys == old(r.loadThrCount).Keys;
  }

  lemma BestIsThere(w: World, x: Table, ln: NodeId, kick: Option<Ptr>)
    requires Known(w, x.info) && Indexed(x) && ln in x.lists && forall p :: p in x.lists[ln] ==> p in x.info
    requires kick.Some?
    requires var (pool, better) := (Pool(w, x, x.lists[ln]), PoolWithCandidate(w, x, x.lists[ln]));
      BestOf(x.info, x.lists[ln], if better != {} then better else pool, kick)
    ensures kick.value in x.info
  {
    hide Known, Indexed, Search;
  }

  lemma GrownThenCounted(x: Table, y: Table, ln: NodeId, p: Ptr, now: nat)
    requires p in x.info && Grown(x, y, ln)
    ensures p in y.info && y.info[p] == x.info[p]
    ensures Grown(
      x.(info := x.info[p := GoneAndCounted(now, x.info[p])]),
      y.(info := y.info[p := GoneAndCounted(now, y.info[p])]), ln)
  {
  }

  // ---------------------------------------------------------------- the tick

  /** The clients kicked by a sequence of events. */
  function KicksOf(events: seq<Event>): seq<Ptr> {
    if events == [] then []
    else
      var e := events[|events| - 1];
      KicksOf(events[..|events| - 1]) + if e.Kicked? then [e.p] else []
  }

  lemma KicksOfOne(events: seq<Event>, p: Ptr)
    ensures KicksOf(events + [Kicked(p)]) == KicksOf(events) + [p]
  {
    assert (events + [Kicked(p)])[..|events|] == events;
  }

  lemma {:induction false} QuietPassKicksNobody(w: World, x: Table, list: seq<Ptr>, n: nat)
    requires Known(w, x.info) && Indexed(x) && n <= |list| && forall p :: p in list ==> p in x.info
    requires Quiet(w, x, list, n)
    ensures KicksOf(PassEvents(w, x, list[..n])) == []
  {
    hide Known, Indexed, Look;
    if n > 0 {
      QuietPassKicksNobody(w, x, list, n - 1);
      EventsOfStep(w, x, list, n - 1);
      EmitsNoKick(PassEvents(w, x, list[..n - 1]), list[n - 1], Look(w, x, list[n - 1]).1);
    }
  }

  lemma EmitsNoKick(events: seq<Event>, p: Ptr, act: Act)
    ensures KicksOf(events + Emits(p, act)) == KicksOf(events) + if act == Deauth then [p] else []
  {
    if act == Nothing {
      assert events + [] == events;
    } else {
      assert (events + Emits(p, act))[..|events|] == events;
    }
  }

  /** A kick between two states of a tick: of a connected, inactive client of the node, which is disconnected after it. */
  ghost predicate KickedIn(cfg: Config, ln: NodeId, x: Table, y: Table, p: Ptr) {
    && p in x.info && x.info[p].node == ln && Kickable(cfg, x.info[p])
    && p in y.info && y.info[p].connected == 0
  }

  /** During a tick nobody connects, becomes inactive or changes node. */
  ghost predicate OnlyLeaving(x: Table, y: Table) {
    && x.info.Keys <= y.info.Keys
    && (forall p :: p in x.info ==>
          && y.info[p].activeBits == x.info[p].activeBits && y.info[p].node == x.info[p].node
          && y.info[p].sta == x.info[p].sta && y.info[p].signal == x.info[p].signal
          && (y.info[p].connected == x.info[p].connected || y.info[p].connected == 0))
    && (forall p :: p in y.info && p !in x.info ==> y.info[p].connected == 0)
  }

  /** The roam pass kicks nobody or the one client it reports. */
  lemma RoamPassKicks(w: World, x: Table, y: Table, ln: NodeId, list: seq<Ptr>, n: nat, kicked: Option<Ptr>)
    requires Known(w, x.info) && Indexed(x) && n <= |list|
    requires forall p :: p in list ==> p in x.info && x.info[p].node == ln
    requires RoamPassed(w, x, y, list, n, kicked)
    ensures KicksOf(PassEvents(w, x, list[..n])) == if kicked.Some? then [kicked.value] else []
    ensures kicked.Some? ==> KickedIn(w.cfg, ln, x, y, kicked.value)
    ensures OnlyLeaving(x, y)
  {
    hide Known, Indexed, Look, Looked, KicksOf, PassEvents;
    QuietPassKicksNobody(w, x, list, 0);
    if n > 0 {
      QuietPassKicksNobody(w, x, list, n - 1);
      EventsOfStep(w, x, list, n - 1);
      EmitsNoKick(PassEvents(w, x, list[..n - 1]), list[n - 1], Look(w, x, list[n - 1]).1);
      if kicked.Some? {
        KickedLook(w, x, list[n - 1]);
      }
    }
    forall p | p in x.info
      ensures OneLeaving(x.info[p], y.info[p])
    {
      if p in list[..n] {
        var j :| 0 <= j < n && list[j] == p;
        LookedLeaving(w, x, p);
      }
    }
  }

  ghost predicate OneLeaving(si: StaInfo, si': StaInfo) {
    && si'.activeBits == si.activeBits && si'.node == si.node && si'.sta == si.sta && si'.signal == si.signal
    && (si'.connected == si.connected || si'.connected == 0)
  }

  /** The roam pass kicks only clients that are weak and were not kicked lately. */
  lemma RoamKicksWeakOnes(w: World, x: Table, p: Ptr)
    requires Known(w, x.info) && Indexed(x) && p in x.info && Look(w, x, p).1 == Deauth
    ensures var si := x.info[p];
      && Kickable(w.cfg, si) && si.signal < SnrToSignal(w.nodes[si.node], RoamScanSnr(w.cfg))
      && w.cfg.roamTriggerInterval <= Since(w.now, si.roam.kick) && si.roam.state == Kick
      && Looked(w, x, p).roam == Roaming(Idle, 0, w.now, w.now, si.roam.scanDone)
  {
  }

  /** The signal an entry has to stay below, for a ratio to the noise. */
  function Floor(noise: int, snr: int): int {
    if snr < 0 then snr else snr + if noise == 0 then -95 else noise
  }

  /** In numbers: the machine moves on for a connected, idle client below the scan level that rested long enough. */
  lemma LookInNumbers(w: World, x: Table, p: Ptr)
    requires Known(w, x.info) && Indexed(x) && p in x.info
    ensures var (si, cfg) := (x.info[p], w.cfg);
      var noise := w.nodes[si.node].noise;
      var fit := && si.connected != 0 && si.activeBits < cfg.kickClientActiveBits
                 && si.signal < Floor(noise, if cfg.roamScanSnr != 0 then cfg.roamScanSnr else cfg.roamTriggerSnr)
                 && cfg.roamTriggerInterval <= Since(w.now, si.roam.kick);
      Look(w, x, p) ==
        if fit then TriggerSm(cfg, w.now, Floor(noise, cfg.roamTriggerSnr) < si.signal, Search(w, x, p) != NotFound, si.roam)
        else (Roaming(Idle, 0, w.now, si.roam.kick, si.roam.scanDone), Nothing)
  {
    hide Search, Known, Indexed;
  }

  lemma KickedLook(w: World, x: Table, p: Ptr)
    requires Known(w, x.info) && Indexed(x) && p in x.info && Look(w, x, p).1 == Deauth
    ensures Kickable(w.cfg, x.info[p]) && Looked(w, x, p).connected == 0
  {
  }

  lemma LookedLeaving(w: World, x: Table, p: Ptr)
    requires Known(w, x.info) && Indexed(x) && p in x.info
    ensures OneLeaving(x.info[p], Looked(w, x, p))
  {
  }

  lemma CountedLeaving(x: Table, y: Table, ln: NodeId, p: Ptr, now: nat)
    requires p in x.info && Grown(x.(info := x.info[p := GoneAndCounted(now, x.info[p])]), y, ln)
    ensures OnlyLeaving(x, y) && p in y.info && y.info[p].connected == 0
  {
  }

  lemma GrownLeaving(x: Table, y: Table, ln: NodeId)
    requires Grown(x, y, ln)
    ensures OnlyLeaving(x, y)
  {
  }

  lemma LeavingTwice(x: Table, y: Table, z: Table)
    requires OnlyLeaving(x, y) && OnlyLeaving(y, z)
    ensures OnlyLeaving(x, z)
  {
  }

  /** A client once kicked stays away. */
  lemma StaysKicked(cfg: Config, ln: NodeId, x: Table, y: Table, z: Table, p: Ptr)
    requires OnlyLeaving(x, y) && OnlyLeaving(y, z) && KickedIn(cfg, ln, x, y, p)
    ensures KickedIn(cfg, ln, x, z, p)
  {
  }

  /** A client kicked later was there from the beginning, and was not kicked before. */
  lemma KickedLater(cfg: Config, ln: NodeId, x: Table, y: Table, z: Table, q: Ptr)
    requires OnlyLeaving(x, y) && OnlyLeaving(y, z) && KickedIn(cfg, ln, y, z, q)
    ensures KickedIn(cfg, ln, x, z, q) && !KickedIn(cfg, ln, x, y, q)
  {
  }

  /** From `x` to `y`, reported by `events`, exactly the clients `ks` were kicked, each once. */
  ghost predicate Kicks(cfg: Config, ln: NodeId, x: Table, y: Table, events: seq<Event>, ks: seq<Ptr>) {
    && OnlyLeaving(x, y) && KicksOf(events) == ks && NoDup(ks)
    && forall p :: p in ks ==> KickedIn(cfg, ln, x, y, p)
  }

  function Listed(kick: Option<Ptr>): seq<Ptr> {
    if kick.Some? then [kick.value] else []
  }

  /** One more pass, which kicks one client at most. */
  lemma OneMorePass(cfg: Config, ln: NodeId, x: Table, y: Table, z: Table, events: seq<Event>, ks: seq<Ptr>,
                    kick: Option<Ptr>)
    requires Kicks(cfg, ln, x, y, events, ks) && OnlyLeaving(y, z)
    requires kick.Some? ==> KickedIn(cfg, ln, y, z, kick.value)
    ensures Kicks(cfg, ln, x, z, events + Reported(kick), ks + Listed(kick))
  {
    hide OnlyLeaving, KickedIn, KicksOf, NoDup;
    LeavingTwice(x, y, z);
    forall p | p in ks
      ensures KickedIn(cfg, ln, x, z, p)
    {
      StaysKicked(cfg, ln, x, y, z, p);
    }
    if kick.Some? {
      KicksOfOne(events, kick.value);
      KickedLater(cfg, ln, x, y, z, kick.value);
      NoDupSnoc(ks, kick.value);
      assert forall p :: p in ks + [kick.value] ==> p in ks || p == kick.value;
    } else {
      assert events + [] == events && ks + [] == ks;
    }
  }

  /** What happened in a tick: the tables after the first and the second pass, and whom each pass kicked. */
  datatype Passes = Passes(roamed: Table, weeded: Table, n: nat, told: seq<Event>, k1: Option<Ptr>, k2: Option<Ptr>,
                           k3: Option<Ptr>)

  /** The three passes one after the other, each on the tables the one before left. */
  ghost predicate Ticked(w: World, ln: NodeId, x: Table, y: Table, counts: map<NodeId, nat>, counts': map<NodeId, nat>,
                         t: Passes) {
    && Serving(w, ln, x) && Serving(w, ln, t.roamed) && Serving(w, ln, t.weeded) && ln in counts
    && Roamed(w, ln, x, t.roamed, t.n, t.k1, t.told)
    && Weeded(w, ln, t.roamed, t.weeded, t.k2)
    && Unloaded(w, ln, t.weeded, y, counts, counts', t.k3)
  }

  function TickEvents(t: Passes): seq<Event> {
    t.told + Reported(t.k2) + Reported(t.k3)
  }

  /**
    The kick passes of one tick of a local node: at most three clients are kicked, all
    different, each one connected and inactive before and disconnected after.
   */
  method LocalNodeKick(r: Registry, ln: NodeId, now: nat) returns (kicks: seq<Ptr>, ghost tick: Passes)
    requires r.Valid() && ln in r.nodes && ln in r.loadThrCount && r.currentTime <= now
    modifies r`table, r`trace, r`currentTime, r`loadThrCount
    ensures r.Valid() && OnlyLeaving(old(r.table), r.table)
    ensures r.currentTime == if RoamScanSnr(r.cfg) != 0 then now else old(r.currentTime)
    ensures Ticked(r.Now(), ln, old(r.table), r.table, old(r.loadThrCount), r.loadThrCount, tick)
    ensures r.trace == old(r.trace) + TickEvents(tick) && KicksOf(TickEvents(tick)) == kicks
    ensures |kicks| <= 3 && NoDup(kicks)
    ensures forall p :: p in kicks ==> KickedIn(r.cfg, ln, old(r.table), r.table, p)
    ensures forall p :: p in kicks ==>
      && p in old(r.table).info && old(r.table).info[p].node == ln
      && old(r.table).info[p].connected != 0 && old(r.table).info[p].activeBits < r.cfg.kickClientActiveBits
      && p in r.table.info && r.table.info[p].connected == 0
  {
    hide *;
    ghost var x, counts := r.table, r.loadThrCount;
    var n, k1;
    ghost var told;
    n, k1, told := RoamKick(r, ln, now);
    ghost var y := r.table;
    var k2 := SignalPass(r, ln);
    ghost var z := r.table;
    OneMorePass(r.cfg, ln, x, y, z, told, Listed(k1), k2);
    var k3 := LoadPass(r, ln);
    OneMorePass(r.cfg, ln, x, z, r.table, told + Reported(k2), Listed(k1) + Listed(k2), k3);
    kicks := Listed(k1) + Listed(k2) + Listed(k3);
    tick := Passes(y, z, n, told, k1, k2, k3);
    PassesMakeTick(r.Now(), ln, x, r.table, counts, r.loadThrCount, tick);
    KicksMeaning(r.cfg, ln, x, r.table, told + Reported(k2) + Reported(k3), kicks);
    KicksInNumbers(r.cfg, ln, x, r.table, kicks);
    ListedLengths(k1, k2, k3);
  }

  lemma PassesMakeTick(w: World, ln: NodeId, x: Table, y: Table, counts: map<NodeId, nat>, counts': map<NodeId, nat>,
                       t: Passes)
    requires Serving(w, ln, x) && Serving(w, ln, t.roamed) && Serving(w, ln, t.weeded) && ln in counts
    requires Roamed(w, ln, x, t.roamed, t.n, t.k1, t.told)
    requires Weeded(w, ln, t.roamed, t.weeded, t.k2)
    requires Unloaded(w, ln, t.weeded, y, counts, counts', t.k3)
    ensures Ticked(w, ln, x, y, counts, counts', t)
    ensures TickEvents(t) == t.told + Reported(t.k2) + Reported(t.k3)
  {
    hide Serving, Roamed, Weeded, Unloaded;
  }

  lemma KicksInNumbers(cfg: Config, ln: NodeId, x: Table, y: Table, ks: seq<Ptr>)
    requires forall p :: p in ks ==> KickedIn(cfg, ln, x, y, p)
    ensures forall p :: p in ks ==>
      && p in x.info && x.info[p].node == ln && x.info[p].connected != 0 && x.info[p].activeBits < cfg.kickClientActiveBits
      && p in y.info && y.info[p].connected == 0
  {
    forall p | p in ks
      ensures p in x.info && x.info[p].connected != 0 && x.info[p].activeBits < cfg.kickClientActiveBits
    {
      assert KickedIn(cfg, ln, x, y, p);
      KickableInNumbers(cfg, x.info[p]);
    }
  }

  lemma ListedLengths(k1: Option<Ptr>, k2: Option<Ptr>, k3: Option<Ptr>)
    ensures |Listed(k1) + Listed(k2) + Listed(k3)| <= 3
  {
  }

  /** The signal pass, seen as a kick pass. */
  method SignalPass(r: Registry, ln: NodeId) returns (kicked: Option<Ptr>)
    requires r.Valid() && ln in r.nodes
    modifies r`table, r`trace
    ensures r.Valid() && r.trace == old(r.trace) + Reported(kicked) && OnlyLeaving(old(r.table), r.table)
    ensures Serving(r.Now(), ln, old(r.table)) && Weeded(r.Now(), ln, old(r.table), r.table, kicked)
    ensures kicked.Some? ==> KickedIn(r.cfg, ln, old(r.table), r.table, kicked.value)
  {
    hide Registry.Valid, Registry.Core, Serving, Weeded, OnlyLeaving, KickedIn, Reported;
    ghost var y := r.table;
    kicked := SnrKick(r, ln);
    SignalPassKicks(r.Now(), ln, y, r.table, kicked);
  }

  /** The load pass, seen as a kick pass. */
  method LoadPass(r: Registry, ln: NodeId) returns (kicked: Option<Ptr>)
    requires r.Valid() && ln in r.nodes && ln in r.loadThrCount
    modifies r`table, r`trace, r`loadThrCount
    ensures r.Valid() && r.trace == old(r.trace) + Reported(kicked) && OnlyLeaving(old(r.table), r.table)
    ensures Serving(r.Now(), ln, old(r.table))
    ensures Unloaded(r.Now(), ln, old(r.table), r.table, old(r.loadThrCount), r.loadThrCount, kicked)
    ensures kicked.Some? ==> KickedIn(r.cfg, ln, old(r.table), r.table, kicked.value)
  {
    hide Registry.Valid, Registry.Core, Serving, Unloaded, OnlyLeaving, KickedIn, Reported;
    ghost var z, counts := r.table, r.loadThrCount;
    kicked := LoadKick(r, ln);
    LoadPassKicks(r.Now(), ln, z, r.table, counts, r.loadThrCount, kicked);
  }

  lemma KicksMeaning(cfg: Config, ln: NodeId, x: Table, y: Table, events: seq<Event>, ks: seq<Ptr>)
    requires Kicks(cfg, ln, x, y, events, ks)
    ensures OnlyLeaving(x, y) && KicksOf(events) == ks && NoDup(ks)
    ensures forall p :: p in ks ==> KickedIn(cfg, ln, x, y, p)
  {
  }

  /** The roam pass, seen as a kick pass. */
  method RoamKick(r: Registry, ln: NodeId, now: nat) returns (n: nat, kicked: Option<Ptr>, ghost told: seq<Event>)
    requires r.Valid() && ln in r.nodes && r.currentTime <= now
    modifies r`table, r`trace, r`currentTime
    ensures r.Valid() && r.trace == old(r.trace) + told
    ensures r.currentTime == if RoamScanSnr(r.cfg) != 0 then now else old(r.currentTime)
    ensures Serving(r.Now(), ln, old(r.table)) && Roamed(r.Now(), ln, old(r.table), r.table, n, kicked, told)
    ensures Kicks(r.cfg, ln, old(r.table), r.table, told, Listed(kicked))
  {
    hide Indexed, ReportsOwned, Represents, Unhurried, Inhabited, Known, Grown, RoamPassed, Untouched, PassEvents;
    hide OnlyLeaving, KickedIn, KicksOf;
    ghost var x := r.table;
    ServingNow(r, ln);
    n, kicked := RoamCheck(r, ln, now);
    if RoamScanSnr(r.cfg) != 0 {
      told := PassEvents(r.Now(), x, x.lists[ln][..n]);
      RoamPassKicks(r.Now(), x, r.table, ln, x.lists[ln], n, kicked);
    } else {
      told := [];
      GrownItself(x, ln);
      GrownLeaving(x, x, ln);
      NoKicks();
    }
  }

  lemma NoKicks()
    ensures KicksOf([]) == []
  {
  }

  lemma SignalPassKicks(w: World, ln: NodeId, x: Table, y: Table, kicked: Option<Ptr>)
    requires Serving(w, ln, x) && Weeded(w, ln, x, y, kicked)
    ensures OnlyLeaving(x, y)
    ensures kicked.Some? ==> KickedIn(w.cfg, ln, x, y, kicked.value)
  {
  }

  lemma LoadPassKicks(w: World, ln: NodeId, x: Table, y: Table, counts: map<NodeId, nat>, counts': map<NodeId, nat>,
                      kick: Option<Ptr>)
    requires Serving(w, ln, x) && ln in counts && Unloaded(w, ln, x, y, counts, counts', kick)
    ensures OnlyLeaving(x, y)
    ensures kick.Some? ==> KickedIn(w.cfg, ln, x, y, kick.value)
  {
    if kick.Some? {
      CountedLeaving(x, y, ln, kick.value, w.now);
    } else {
      GrownLeaving(x, y, ln);
    }
  }
}
