/**
  Frames heard from stations on a local node.
 */
module Events {
  import opened Types
  import opened Timeout
  import opened HearingMap
  import opened Stations
  import opened Candidates
  import opened Registry
  import opened Policy
  import opened Blocking

  /** Nobody is connected who was not. */
  ghost predicate NoneConnects(x: Table, y: Table) {
    forall p :: p in y.info && y.info[p].connected != 0 ==>
      p in x.info && x.info[p].connected == y.info[p].connected && x.info[p].node == y.info[p].node
  }

  lemma NoneConnectsTwice(x: Table, y: Table, z: Table)
    requires NoneConnects(x, y) && NoneConnects(y, z)
    ensures NoneConnects(x, z)
  {
  }

  /** An entry when the request has been noted and not yet decided. */
  function Noted(cfg: Config, now: nat, si: StaInfo, kind: EventType): StaInfo {
    si.(roam := si.roam.(scanDone := now)).WithStats(kind, Requested(cfg, now, si.StatsOf(kind)))
  }

  /** An entry when a frame with the given signal was heard; a connected one keeps its averaged signal. */
  function Refreshed(now: nat, signal: int, si: StaInfo): StaInfo {
    var keep := signal == NO_SIGNAL || (si.connected == 1 && si.signal != NO_SIGNAL);
    si.(signal := if keep then si.signal else signal, seen := now)
  }

  /** An entry as it was, or as it is made. */
  function Former(x: Table, p: Ptr, node: NodeId, addr: Addr, freq: int, now: nat): StaInfo {
    if p in x.info then x.info[p] else NewEntry(node, addr, freq, now)
  }

  /** Would the policy refuse the request if the client had not been refused before? */
  ghost predicate Refuses(w: World, x: Table, p: Ptr, kind: EventType)
    requires Known(w, x.info) && Indexed(x) && p in x.info
  {
    kind != Assoc && !(Answerable(w, x.info[p]) && Search(w, x, p) == NotFound)
  }

  /** What a frame does to the entry of its client, field by field; the statistics go through one try. */
  ghost predicate FrameTaken(cfg: Config, now: nat, signal: int, kind: EventType, si: StaInfo, si': StaInfo, t: Try,
                             ok: bool) {
    && t.at == now && (si'.StatsOf(kind), ok) == Answer(cfg, si.StatsOf(kind), t)
    && (forall k :: k != kind ==> si'.StatsOf(k) == si.StatsOf(k))
    && si'.node == si.node && si'.sta == si.sta && si'.created == si.created && si'.connected == si.connected
    && si'.signal == (if signal == 0xff || (si.connected == 1 && si.signal != 0xff) then si.signal else signal)
    && si'.seen == now && si'.roam == si.roam.(scanDone := now)
    && si'.kickCount == si.kickCount && si'.activeBits == si.activeBits && si'.hearing == si.hearing
  }

  /** The decision is the one of `Answer`, with the refusals of this kind of request so far. */
  lemma FrameIsTry(w: World, mid: Table, p: Ptr, signal: int, kind: EventType, si: StaInfo, ok: bool)
    requires Known(w, mid.info) && Indexed(mid) && p in mid.info
    requires mid.info[p] == Noted(w.cfg, w.now, Refreshed(w.now, signal, si), kind)
    requires ok <==> Accepts(w, mid, p, kind)
    ensures FrameTaken(w.cfg, w.now, signal, kind, si,
      mid.info[p].WithStats(kind, Decided(w.now, mid.info[p].StatsOf(kind), ok)), Try(w.now, Refuses(w, mid, p, kind)), ok)
  {
    hide Search, Known, Indexed;
  }

  /** A client this node hears for the first time is refused, unless there is no initial delay, or no limit. */
  lemma NewcomerIsRefused(w: World, mid: Table, p: Ptr, signal: int, kind: EventType, node: NodeId, addr: Addr, freq: int)
    requires Known(w, mid.info) && Indexed(mid) && p in mid.info && kind != Assoc
    requires mid.info[p] == Noted(w.cfg, w.now, Refreshed(w.now, signal, NewEntry(node, addr, freq, w.now)), kind)
    requires 0 < w.cfg.initialConnectDelay && 0 < w.cfg.maxRetryBand
    ensures !Accepts(w, mid, p, kind)
  {
    hide Search, Known, Indexed;
  }

  /** The entry the event is about, made if need be and refreshed. */
  method Refresh(r: Registry, node: NodeId, addr: Addr, signal: int, now: nat) returns (p: Ptr)
    requires r.Valid() && node in r.nodes && r.tq.Timely(now) && r.currentTime <= now
    modifies r`table, r.tq
    ensures r.Valid() && r.tq.Timely(now) && NoneConnects(old(r.table), r.table)
    ensures p in r.table.info && r.table.info[p].sta == addr && r.table.info[p].node == node
    ensures r.tq.pending ==
      if r.table.info[p].connected == 1 then old(r.tq.pending) - {p}
      else old(r.tq.pending)[p := Stamp(now + r.cfg.localStaTimeout, old(r.tq.serial))]
    ensures forall q :: q in old(r.table).info && q != p ==> q in r.table.info && r.table.info[q] == old(r.table).info[q]
    ensures forall q :: q in r.table.info && q !in old(r.table).info ==> q == p
    ensures r.table.info[p] == Refreshed(r.currentTime, signal,
      Former(old(r.table), p, node, addr, r.nodes[node].freq, r.currentTime))
  {
    hide Indexed, ReportsOwned, Represents, Inhabited, Unhurried;
    p := EntryOf(r, node, addr);
    r.StaInfoUpdate(p, signal, false, now);
  }

  /** From `x` to `y` no other entry than `p` changed, and none went. */
  ghost predicate MadeAtMost(x: Table, y: Table, p: Ptr) {
    && y.info.Keys == x.info.Keys + {p}
    && forall q :: q in x.info && q != p ==> y.info[q] == x.info[q]
  }

  /** A frame of a station: note it, and decide whether to answer. */
  method HandleStaEvent(r: Registry, node: NodeId, addr: Addr, kind: EventType, signal: int, now: nat)
    returns (ok: bool, p: Ptr, ghost mid: Table)
    requires r.Valid() && node in r.nodes && r.tq.Timely(now) && r.currentTime <= now
    modifies r`table, r.tq
    ensures r.Valid() && r.tq.Timely(now) && NoneConnects(old(r.table), r.table)
    // at the time of the decision
    ensures p in mid.info && mid.info[p].sta == addr && mid.info[p].node == node
    ensures mid.info[p] == Noted(r.cfg, r.currentTime, Refreshed(r.currentTime, signal,
      Former(old(r.table), p, node, addr, r.nodes[node].freq, r.currentTime)), kind)
    ensures MadeAtMost(old(r.table), mid, p)
    ensures Known(r.Now(), mid.info) && Indexed(mid)
    ensures ok <==> Accepts(r.Now(), mid, p, kind)
    // after it
    ensures p in r.table.info
    ensures r.table.info[p] == mid.info[p].WithStats(kind, Decided(r.currentTime, mid.info[p].StatsOf(kind), ok))
    ensures FrameTaken(r.cfg, r.currentTime, signal, kind,
      Former(old(r.table), p, node, addr, r.nodes[node].freq, r.currentTime), r.table.info[p],
      Try(r.currentTime, Refuses(r.Now(), mid, p, kind)), ok)
    ensures r.tq.pending ==
      if r.table.info[p].connected == 1 then old(r.tq.pending) - {p}
      else old(r.tq.pending)[p := Stamp(now + r.cfg.localStaTimeout, old(r.tq.serial))]
    ensures forall q :: q in old(r.table).info && q != p ==> q in r.table.info && r.table.info[q] == old(r.table).info[q]
    ensures forall q :: q in r.table.info && q !in old(r.table).info && q != p ==> Blank(r.table.info[q])
  {
    hide Registry.Valid, Registry.Core, NoneConnects, Former, Noted, Refreshed, Decided, Accepts, Decision, MadeAtMost;
    hide FrameTaken, Refuses, Known, Indexed, Blank;
    ghost var x := r.table;
    p := NoteFrame(r, node, addr, kind, signal, now);
    mid := r.table;
    ok := DecideFrame(r, p, kind);
    NoneConnectsTwice(x, mid, r.table);
    FrameIsTry(r.Now(), mid, p, signal, kind, Former(x, p, node, addr, r.nodes[node].freq, r.currentTime), ok);
    OthersAsBefore(x, mid, r.table, p, kind, r.currentTime, ok);
  }

  /** The entry is made or found, refreshed, and the request noted in it. */
  method NoteFrame(r: Registry, node: NodeId, addr: Addr, kind: EventType, signal: int, now: nat) returns (p: Ptr)
    requires r.Valid() && node in r.nodes && r.tq.Timely(now) && r.currentTime <= now
    modifies r`table, r.tq
    ensures r.Valid() && r.tq.Timely(now) && NoneConnects(old(r.table), r.table)
    ensures p in r.table.info && r.table.info[p].sta == addr && r.table.info[p].node == node
    ensures r.table.info[p] == Noted(r.cfg, r.currentTime, Refreshed(r.currentTime, signal,
      Former(old(r.table), p, node, addr, r.nodes[node].freq, r.currentTime)), kind)
    ensures MadeAtMost(old(r.table), r.table, p)
    ensures r.tq.pending ==
      if r.table.info[p].connected == 1 then old(r.tq.pending) - {p}
      else old(r.tq.pending)[p := Stamp(now + r.cfg.localStaTimeout, old(r.tq.serial))]
  {
    hide Registry.Valid, Registry.Core, NoneConnects, Former, Noted, Refreshed;
    ghost var x := r.table;
    p := Refresh(r, node, addr, signal, now);
    ghost var y := r.table;
    NotedKeeps(r.cfg, r.currentTime, r.table.info[p], kind);
    Rewrite(r, p, Noted(r.cfg, r.currentTime, r.table.info[p], kind));
    NoneConnectsTwice(x, y, r.table);
  }

  /** The request is decided, and the decision noted. */
  method DecideFrame(r: Registry, p: Ptr, kind: EventType) returns (ok: bool)
    requires r.Valid() && p in r.table.info
    modifies r`table
    ensures r.Valid() && NoneConnects(old(r.table), r.table)
    ensures Known(r.Now(), old(r.table).info) && Indexed(old(r.table))
    ensures ok <==> Accepts(r.Now(), old(r.table), p, kind)
    ensures Decision(old(r.table), r.table, p, kind, r.currentTime, ok)
  {
    hide Registry.Valid, Registry.Core, Indexed, Known, NoneConnects, Decided, Accepts, Decision;
    KnownNow(r);
    ghost var mid := r.table;
    ok := CheckRequest(r, p, kind);
    ghost var z := r.table;
    GrowingConnectsNone(mid, z, mid.info[p].node);
    var si := r.table.info[p];
    Rewrite(r, p, si.WithStats(kind, Decided(r.currentTime, si.StatsOf(kind), ok)));
    NoneConnectsTwice(mid, z, r.table);
    DecisionNoted(mid, z, p, kind, r.currentTime, ok);
  }

  /** The entry has the decision in its statistics, the others are as before, and those the search made are blank. */
  ghost predicate Decision(x: Table, y: Table, p: Ptr, kind: EventType, now: nat, ok: bool) {
    && x.info.Keys <= y.info.Keys && p in x.info
    && y.info[p] == x.info[p].WithStats(kind, Decided(now, x.info[p].StatsOf(kind), ok))
    && (forall q :: q in x.info && q != p ==> y.info[q] == x.info[q])
    && (forall q :: q in y.info && q !in x.info ==> Blank(y.info[q]))
  }

  lemma DecisionNoted(x: Table, z: Table, p: Ptr, kind: EventType, now: nat, ok: bool)
    requires p in x.info && (forall q :: q in x.info ==> q in z.info && z.info[q] == x.info[q])
    requires forall q :: q in z.info && q !in x.info ==> Blank(z.info[q])
    ensures var si := z.info[p];
      Decision(x, z.(info := z.info[p := si.WithStats(kind, Decided(now, si.StatsOf(kind), ok))]), p, kind, now, ok)
  {
  }

  lemma OthersAsBefore(x: Table, mid: Table, y: Table, p: Ptr, kind: EventType, now: nat, ok: bool)
    requires MadeAtMost(x, mid, p) && Decision(mid, y, p, kind, now, ok)
    ensures p in mid.info && p in y.info && y.info[p] == mid.info[p].WithStats(kind, Decided(now,
                                                                                             mid.info[p].StatsOf(kind), ok))
    ensures y.info[p].connected == mid.info[p].connected
    ensures forall q :: q in x.info && q != p ==> q in y.info && y.info[q] == x.info[q]
    ensures forall q :: q in y.info && q !in x.info && q != p ==> Blank(y.info[q])
  {
    hide Decided;
  }

  lemma NotedKeeps(cfg: Config, now: nat, si: StaInfo, kind: EventType)
    ensures var si' := Noted(cfg, now, si, kind);
      && si'.node == si.node && si'.sta == si.sta && si'.seen == si.seen && si'.hearing == si.hearing
      && si'.connected == si.connected
  {
  }

  lemma GrowingConnectsNone(x: Table, y: Table, node: NodeId)
    requires Grown(x, y, node)
    ensures NoneConnects(x, y)
    ensures forall q :: q in x.info ==> q in y.info && y.info[q] == x.info[q]
    ensures forall q :: q in y.info && q !in x.info ==> Blank(y.info[q])
  {
  }

  /** Change what the policy may change of an entry. */
  method Rewrite(r: Registry, p: Ptr, si: StaInfo)
    requires r.Valid() && p in r.table.info
    requires si.node == r.table.info[p].node && si.sta == r.table.info[p].sta && si.seen == r.table.info[p].seen
    requires si.hearing == r.table.info[p].hearing && si.connected == r.table.info[p].connected
    modifies r`table
    ensures r.Valid() && r.table == old(r.table).(info := old(r.table).info[p := si])
    ensures NoneConnects(old(r.table), r.table)
  {
    hide Indexed, ReportsOwned, Represents, Unhurried;
    WriteKeepsValid(r, p, si);
    r.Write(p, si);
  }

  /** The event as it comes in: the cached clock is set first, so that the decision is made at `now`. */
  method HandleEvent(r: Registry, node: NodeId, addr: Addr, kind: EventType, signal: int, now: nat)
    returns (ok: bool, p: Ptr, ghost mid: Table)
    requires r.Valid() && node in r.nodes && r.tq.Timely(now) && r.currentTime <= now
    modifies r`table, r`currentTime, r.tq
    ensures r.Valid() && r.tq.Timely(now) && NoneConnects(old(r.table), r.table) && r.currentTime == now
    ensures p in mid.info && mid.info[p].sta == addr && mid.info[p].node == node
    ensures mid.info[p] == Noted(r.cfg, now, Refreshed(now, signal,
      Former(old(r.table), p, node, addr, r.nodes[node].freq, now)), kind)
    ensures MadeAtMost(old(r.table), mid, p)
    ensures Known(r.Now(), mid.info) && Indexed(mid)
    ensures ok <==> Accepts(r.Now(), mid, p, kind)
    ensures p in r.table.info
    ensures r.table.info[p] == mid.info[p].WithStats(kind, Decided(now, mid.info[p].StatsOf(kind), ok))
    ensures FrameTaken(r.cfg, now, signal, kind,
      Former(old(r.table), p, node, addr, r.nodes[node].freq, now), r.table.info[p],
      Try(now, Refuses(r.Now(), mid, p, kind)), ok)
    ensures r.tq.pending ==
      if r.table.info[p].connected == 1 then old(r.tq.pending) - {p}
      else old(r.tq.pending)[p := Stamp(now + r.cfg.localStaTimeout, old(r.tq.serial))]
    ensures forall q :: q in old(r.table).info && q != p ==> q in r.table.info && r.table.info[q] == old(r.table).info[q]
    ensures forall q :: q in r.table.info && q !in old(r.table).info && q != p ==> Blank(r.table.info[q])
  {
    hide *;
    r.UpdateTime(now);
    ok, p, mid := HandleStaEvent(r, node, addr, kind, signal, now);
  }

  /** Change the hearing map of an entry. */
  method SetHearing(r: Registry, p: Ptr, h: Hearing)
    requires r.Valid() && p in r.table.info && forall br :: br in h.reports ==> br.owner == p
    modifies r`table
    ensures r.Valid() && r.table == old(r.table).(info := old(r.table).info[p := old(r.table).info[p].(hearing := h)])
    ensures NoneConnects(old(r.table), r.table)
  {
    hide Indexed, ReportsOwned, Represents;
    r.Write(p, r.table.info[p].(hearing := h));
  }

  lemma OwnReports(r: Registry, p: Ptr)
    requires r.Valid() && p in r.table.info
    ensures forall br :: br in r.table.info[p].hearing.reports ==> br.owner == p
  {
  }

  /** A beacon report of a client: taken in if the client is known here and the access point it is about is known. */
  method HandleBeaconReport(r: Registry, node: NodeId, addr: Addr, bssid: Bssid, rcpi: int, rsni: int, opClass: int,
                            channel: int)
    returns (accepted: Option<Ptr>)
    requires r.Valid() && node in r.nodes
    modifies r`table
    ensures r.Valid() && NoneConnects(old(r.table), r.table)
    ensures accepted.None? ==>
      && r.table == old(r.table)
      && ((forall q :: q in r.table.info && r.table.info[q].sta == addr ==> r.table.info[q].node != node)
          || (forall n :: n in r.locals + r.remotes ==> n in r.nodes && r.nodes[n].bssid != bssid))
    ensures accepted.Some? ==> var (x, p) := (old(r.table), accepted.value);
      && p in x.info && x.info[p].sta == addr && x.info[p].node == node
      && (exists n :: n in r.locals + r.remotes && n in r.nodes && r.nodes[n].bssid == bssid)
      && var h := x.info[p].hearing;
         var br := Report(p, bssid, rcpi, rsni, opClass, channel, r.currentTime);
         r.table == x.(info := x.info[p := x.info[p].(hearing :=
           h.(lastReport := r.currentTime, reports := Inserted(r.cfg, r.currentTime, h.reports, br)))])
  {
    hide Indexed, ReportsOwned, Represents, NoneConnects, Unhurried;
    accepted := None;
    KnownNow(r);
    NoneConnectsItself(r.table);
    if addr !in r.table.stations {
      forall q | q in r.table.info
        ensures r.table.info[q].sta != addr
      {
        EntryListed(r.table, q);
      }
      return;
    }
    var entry := r.FindEntry(addr, node);
    if entry.None? {
      return;
    }
    var n := GetNodeFromBssid(r.Now(), bssid);
    NodeWithBssidKnown(r.Now(), r.Now().order, bssid);
    if n.None? {
      return;
    }
    var p := entry.value;
    var h := r.table.info[p].hearing;
    var br := Report(p, bssid, rcpi, rsni, opClass, channel, r.currentTime);
    var reports := Insert(r.cfg, r.currentTime, h.reports, br);
    KeepMembers(r.cfg, r.currentTime, Some(bssid), h.reports);
    OwnReports(r, p);
    SetHearing(r, p, h.(lastReport := r.currentTime, reports := reports));
    accepted := Some(p);
  }

  lemma NoneConnectsItself(x: Table)
    ensures NoneConnects(x, x)
  {
  }
}
