/**
  What each operation does to the whole state, said of the state before and
  the state after.
 */
module Effects {
  import opened Types
  import opened Lists
  import opened Timeout
  import opened HearingMap
  import opened Stations
  import opened Candidates
  import opened Blocking
  import opened Kicking
  import opened Registry
  import opened Policy
  import opened Events
  import opened Poll
  import opened Remote

  datatype Op =
    | Frame(node: NodeId, addr: Addr, kind: EventType, signal: int)
    | Beacon(node: NodeId, addr: Addr, bssid: Bssid, rcpi: int, rsni: int, opClass: int, channel: int)
    | Clients(node: NodeId, freq: int, clients: seq<ClientReport>)
    | KickTick(node: NodeId)
    | NodeMessage(node: NodeId, attributes: Node, at: nat, stations: seq<StaMsg>)
    | UpdateTick
    | LocalInfo(node: NodeId, attributes: Node)
    | LocalUp(node: NodeId, attributes: Node, at: nat)
    | LocalDown(node: NodeId)
    | Timers

  /** The state as a value: all fields of the registry, and the timers with their true deadlines. */
  datatype Snapshot = Snapshot(
    table: Table,
    nodes: map<NodeId, Node>,
    locals: seq<NodeId>,
    remotes: seq<NodeId>,
    check: map<NodeId, nat>,
    counts: map<NodeId, nat>,
    timers: map<Ptr, Stamp>,
    serial: nat,
    clock: nat,
    trace: seq<Event>)

  ghost function Snap(r: Registry): Snapshot
    reads r, r.tq
  {
    Snapshot(r.table, r.nodes, r.locals, r.remotes, r.check, r.loadThrCount, r.tq.pending, r.tq.serial, r.currentTime,
             r.trace)
  }

  function WorldOf(cfg: Config, s: Snapshot): World {
    World(cfg, s.clock, s.nodes, s.locals + s.remotes)
  }

  /** An operation of a node that is not there, or of one that cannot be put in its place. */
  ghost predicate Ignored(o: Op, s: Snapshot) {
    if o.UpdateTick? || o.Timers? then false
    else if o.NodeMessage? then o.node in s.locals || (o.node !in s.nodes && |s.remotes| < o.at)
    else if o.LocalUp? then o.node in s.nodes || |s.locals| < o.at
    else o.node !in s.locals
  }

  // ---------------------------------------------------------------- frames and reports

  /**
    A frame: the entry of its client is made or found and takes the frame, its timer is put off or stopped, and the
    answer is decided with that entry in place; other entries stay, and those the search makes are blank.
   */
  ghost predicate FrameDone(cfg: Config, node: NodeId, addr: Addr, kind: EventType, signal: int, now: nat,
                            s: Snapshot, s': Snapshot, answer: bool, p: Ptr, mid: Table) {
    && s' == s.(table := s'.table, timers := s'.timers, serial := s'.serial, clock := now)
    && node in s.nodes && p in s'.table.info && s'.table.info[p].node == node && s'.table.info[p].sta == addr
    && MadeAtMost(s.table, mid, p) && Known(WorldOf(cfg, s'), mid.info) && Indexed(mid)
    && s'.table.info[p].WithStats(kind, mid.info[p].StatsOf(kind)) == mid.info[p]
    && FrameTaken(cfg, now, signal, kind, Former(s.table, p, node, addr, s.nodes[node].freq, now), s'.table.info[p],
                  Try(now, Refuses(WorldOf(cfg, s'), mid, p, kind)), answer)
    && (forall q :: q in s.table.info && q != p ==> q in s'.table.info && s'.table.info[q] == s.table.info[q])
    && (forall q :: q in s'.table.info && q !in s.table.info && q != p ==> Blank(s'.table.info[q]))
    && s'.timers == if s'.table.info[p].connected == 1 then s.timers - {p}
                    else s.timers[p := Stamp(now + cfg.localStaTimeout, s.serial)]
  }

  ghost predicate KnownBssid(w: World, bssid: Bssid) {
    exists n :: n in w.order && n in w.nodes && w.nodes[n].bssid == bssid
  }

  ghost predicate IsEntry(x: Table, p: Ptr, node: NodeId, addr: Addr) {
    p in x.info && x.info[p].node == node && x.info[p].sta == addr
  }

  /** A report taken in: the newest of the client's, the others of that access point and the expired ones are gone. */
  ghost predicate ReportTaken(cfg: Config, now: nat, br: Report, x: Table, y: Table) {
    br.owner in x.info &&
    var (si, p) := (x.info[br.owner], br.owner);
    y == x.(info := x.info[p := si.(hearing := si.hearing.(
      lastReport := now, reports := [br] + Keep(cfg, now, Some(br.bssid), si.hearing.reports)))])
  }

  ghost predicate BeaconDone(cfg: Config, o: Op, now: nat, s: Snapshot, s': Snapshot)
    requires o.Beacon?
  {
    && s' == s.(table := s'.table, clock := now)
    && if (exists p :: IsEntry(s.table, p, o.node, o.addr)) && KnownBssid(WorldOf(cfg, s), o.bssid)
       then exists p :: IsEntry(s.table, p, o.node, o.addr)
              && ReportTaken(cfg, now, Report(p, o.bssid, o.rcpi, o.rsni, o.opClass, o.channel, now), s.table, s'.table)
       else s'.table == s.table
  }

  // ---------------------------------------------------------------- polls and ticks

  /** A poll's answer: every entry of the node is what the reports make of it, and its count theirs. */
  ghost predicate ClientsDone(cfg: Config, ln: NodeId, freq: int, clients: seq<ClientReport>, now: nat, s: Snapshot,
                              s': Snapshot) {
    && ln in s.nodes && (forall n :: n in s.locals ==> n in s.nodes) && ln in s.locals
    && s' == s.(table := s'.table, nodes := s'.nodes, timers := s'.timers, serial := s'.serial, trace := s'.trace)
    && s'.nodes == s.nodes[ln := s.nodes[ln].(freq := freq, nAssoc := Counted(clients))]
    && s.trace <= s'.trace && PollKeeps(s.table, s'.table, ln, s.timers, s'.timers)
    && PollConnects(s'.table, ln, clients)
    && PollOutcome(cfg, now, s.table, s'.table, ln, clients, s.timers, s'.timers)
    && PollWrites(cfg, s.clock, freq, LocalFreqs(s.nodes[ln := s.nodes[ln].(freq := freq)], s.locals), ln, clients,
                  s.table, s'.table)
    && PollAsks(cfg, s.clock, freq, LocalFreqs(s.nodes[ln := s.nodes[ln].(freq := freq)], s.locals), ln, clients,
                s.table, s'.table, s'.trace[|s.trace|..])
    && OnlyAsks(s'.trace[|s.trace|..], s'.table, ln)
  }

  /** A tick: the three passes, their messages, and in numbers whom they kick. */
  ghost predicate TickDone(cfg: Config, ln: NodeId, now: nat, s: Snapshot, s': Snapshot, t: Passes) {
    && s' == s.(table := s'.table, counts := s'.counts, trace := s.trace + TickEvents(t),
                clock := if RoamScanSnr(cfg) != 0 then now else s.clock)
    && Ticked(WorldOf(cfg, s'), ln, s.table, s'.table, s.counts, s'.counts, t)
    && |KicksOf(TickEvents(t))| <= 3 && NoDup(KicksOf(TickEvents(t)))
    && forall p :: p in KicksOf(TickEvents(t)) ==>
         && p in s.table.info && s.table.info[p].node == ln && IdleClient(cfg, s.table.info[p])
         && p in s'.table.info && s'.table.info[p].connected == 0
  }

  // ---------------------------------------------------------------- nodes

  /** A message of another access point: its node has the attributes told and is young again,
    and its stations are taken over. */
  ghost predicate MessageDone(o: Op, now: nat, s: Snapshot, s': Snapshot)
    requires o.NodeMessage? && !Ignored(o, s)
  {
    && s' == s.(table := s'.table, nodes := s.nodes[o.node := o.attributes], remotes := s'.remotes,
                check := s.check[o.node := 0], timers := s'.timers, serial := s'.serial)
    && s'.remotes == (if o.node in s.nodes then s.remotes else InsertAt(s.remotes, o.at, o.node))
    && s'.table.lists.Keys == s.table.lists.Keys + {o.node}
    && StationsTaken(s.clock, now, o.node, o.attributes.freq, o.stations, s.table, s'.table, s.timers, s'.timers)
  }

  /** Ageing: nodes silent for too long go with their entries and timers, and the others are an interval older. */
  ghost predicate AgeingDone(cfg: Config, now: nat, s: Snapshot, s': Snapshot)
    requires Sane(cfg)
  {
    && s' == s.(table := s'.table, nodes := s'.nodes, remotes := s'.remotes, check := s'.check, timers := s'.timers,
                clock := now)
    && Aged(CheckLimit(cfg), s.check.Keys, s.check, s'.check)
    && s'.nodes == s.nodes - (s.check.Keys - s'.check.Keys)
    && s'.remotes == Minus(s.remotes, s.check.Keys - s'.check.Keys)
    && KeptWithNodes(s.table, s'.table, s'.nodes.Keys) && TimersLeft(s'.table, s.timers, s'.timers)
  }

  ghost predicate LocalInfoDone(ln: NodeId, attributes: Node, s: Snapshot, s': Snapshot) {
    ln in s.nodes && s' == s.(nodes := s.nodes[ln := attributes.(nAssoc := s.nodes[ln].nAssoc)])
  }

  ghost predicate LocalUpDone(ln: NodeId, attributes: Node, at: nat, s: Snapshot, s': Snapshot)
    requires at <= |s.locals|
  {
    s' == s.(nodes := s.nodes[ln := attributes], locals := InsertAt(s.locals, at, ln), counts := s.counts[ln := 0],
             table := s.table.(lists := s.table.lists[ln := []]))
  }

  /** A local node goes with its entries, their timers, and the stations only it knew. */
  ghost predicate LocalDownDone(ln: NodeId, s: Snapshot, s': Snapshot) {
    ln in s.table.lists &&
    var dead := Elements(s.table.lists[ln]);
    var y := Delete(s.table, dead);
    s' == s.(nodes := s.nodes - {ln}, locals := Minus(s.locals, {ln}), remotes := Minus(s.remotes, {ln}),
             check := s.check - {ln}, counts := s.counts - {ln}, table := y.(lists := y.lists - {ln}),
               timers := s.timers - dead)
  }

  // ---------------------------------------------------------------- timers

  /** The timers: all that are due by `time` were freed in their order, each when it was due and none before,
    and no others. */
  ghost predicate TimersDone(cfg: Config, start: nat, s: Snapshot, s': Snapshot, fired: seq<Ptr>, at: seq<nat>, time: nat) {
    && s' == s.(table := Delete(s.table, Elements(fired)), timers := s.timers - Elements(fired), serial := s'.serial)
    && start <= time && |at| == |fired|
    && (forall i :: 0 <= i < |fired| ==> fired[i] in s.timers && s.timers[fired[i]].due <= at[i] <= time)
    && (forall i, j :: 0 <= i < j < |fired| ==> Before(s.timers[fired[i]], s.timers[fired[j]]))
    && (forall p :: p in s'.timers ==> time < s'.timers[p].due)
    && (forall i :: 0 <= i < |fired| ==> Unseen(cfg, s.locals, s.table.info, fired[i], at[i]))
  }

  // ---------------------------------------------------------------- all of them

  /** What the operation `o` does at `now`, or from `now` on; `answer` is what hostapd is told about a frame. */
  ghost predicate Effect(cfg: Config, o: Op, now: nat, s: Snapshot, s': Snapshot, answer: bool)
    requires Sane(cfg)
  {
    if Ignored(o, s) then s' == s
    else
      match o
      case Frame(node, addr, kind, signal) =>
        exists p, mid :: FrameDone(cfg, node, addr, kind, signal, now, s, s', answer, p, mid)
      case Beacon(_, _, _, _, _, _, _) => BeaconDone(cfg, o, now, s, s')
      case Clients(node, freq, clients) => ClientsDone(cfg, node, freq, clients, now, s, s')
      case KickTick(node) => exists t :: TickDone(cfg, node, now, s, s', t)
      case NodeMessage(_, _, _, _) => MessageDone(o, now, s, s')
      case UpdateTick => AgeingDone(cfg, now, s, s')
      case LocalInfo(node, attributes) => LocalInfoDone(node, attributes, s, s')
      case LocalUp(node, attributes, at) => LocalUpDone(node, attributes, at, s, s')
      case LocalDown(node) => LocalDownDone(node, s, s')
      case Timers => exists fired, at, time :: TimersDone(cfg, now, s, s', fired, at, time)
  }
}
