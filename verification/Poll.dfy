/**
  The poll of a local node's clients: a mark-and-sweep over its entries.
  While it runs, `connected` is 1 for a client reported associated, 2 for one
  that was connected before and has not been reported yet.
 */
module Poll {
  import opened Types
  import opened Lists
  import opened Timeout
  import opened HearingMap
  import opened Stations
  import opened Candidates
  import opened Registry
  import opened Policy
  import opened Events

  /** What hostapd and the driver say about one client. */
  datatype ClientReport = ClientReport(
    addr: Addr,
    assoc: bool,
    /** The driver's average signal, if it knows the client. */
    driver: Option<int>,
    /** A new reading of the client's traffic, if one is due. */
    traffic: Option<nat>)

  // ---------------------------------------------------------------- what is counted

  /** Is the address reported associated? */
  ghost predicate AssocIn(clients: seq<ClientReport>, addr: Addr) {
    exists j :: 0 <= j < |clients| && clients[j].addr == addr && clients[j].assoc
  }

  /** One for each report of a client that is (by then) associated. */
  ghost function Counted(clients: seq<ClientReport>): nat {
    if clients == [] then 0
    else Counted(clients[..|clients| - 1]) + if AssocIn(clients, clients[|clients| - 1].addr) then 1 else 0
  }

  ghost function AssocAddrs(clients: seq<ClientReport>): set<Addr> {
    set c | c in clients && c.assoc :: c.addr
  }

  ghost predicate DistinctAddrs(clients: seq<ClientReport>) {
    forall i, j :: 0 <= i < j < |clients| ==> clients[i].addr != clients[j].addr
  }

  lemma AssocSnoc(clients: seq<ClientReport>, c: ClientReport, addr: Addr)
    ensures AssocIn(clients + [c], addr) <==> AssocIn(clients, addr) || (c.addr == addr && c.assoc)
  {
    var all := clients + [c];
    if AssocIn(clients, addr) {
      var j :| 0 <= j < |clients| && clients[j].addr == addr && clients[j].assoc;
      assert all[j] == clients[j];
    }
    if c.addr == addr && c.assoc {
      assert all[|clients|] == c;
    }
  }

  lemma AssocAddrsMeaning(clients: seq<ClientReport>)
    ensures forall a :: a in AssocAddrs(clients) <==> AssocIn(clients, a)
  {
    forall a | a in AssocAddrs(clients)
      ensures AssocIn(clients, a)
    {
      var c :| c in clients && c.assoc && c.addr == a;
      var j :| 0 <= j < |clients| && clients[j] == c;
    }
    forall a | AssocIn(clients, a)
      ensures a in AssocAddrs(clients)
    {
      var j :| 0 <= j < |clients| && clients[j].addr == a && clients[j].assoc;
      assert clients[j] in clients;
    }
  }

  lemma AddrsSnoc(clients: seq<ClientReport>, c: ClientReport)
    ensures AssocAddrs(clients + [c]) == AssocAddrs(clients) + (if c.assoc then {c.addr} else {})
  {
    assert forall d :: d in clients + [c] <==> d in clients || d == c;
  }

  lemma NewAddress(clients: seq<ClientReport>, c: ClientReport)
    requires DistinctAddrs(clients + [c])
    ensures DistinctAddrs(clients) && !AssocIn(clients, c.addr)
  {
    var all := clients + [c];
    assert forall i :: 0 <= i < |clients| ==> clients[i] == all[i];
    assert all[|clients|] == c;
  }

  /** Never fewer than the associated addresses, and as many when no address is reported twice. */
  lemma {:induction false} CountedAddrs(clients: seq<ClientReport>)
    ensures |AssocAddrs(clients)| <= Counted(clients)
    ensures DistinctAddrs(clients) ==> |AssocAddrs(clients)| == Counted(clients)
  {
    hide AssocIn, DistinctAddrs;
    if clients == [] {
      assert AssocAddrs(clients) == {};
    } else {
      var n := |clients| - 1;
      var front, c := clients[..n], clients[n];
      assert clients == front + [c];
      CountedAddrs(front);
      AssocSnoc(front, c, c.addr);
      AddrsSnoc(front, c);
      AssocAddrsMeaning(front);
      if DistinctAddrs(clients) {
        NewAddress(front, c);
      }
    }
  }

  // ---------------------------------------------------------------- what is connected

  ghost function ConnectedOn(info: map<Ptr, StaInfo>, ln: NodeId): set<Ptr> {
    set p | p in info && info[p].node == ln && info[p].connected == 1
  }

  ghost function StasOf(info: map<Ptr, StaInfo>, ps: set<Ptr>): set<Addr> {
    set p | p in ps && p in info :: info[p].sta
  }

  /** One station has one entry per node, so entries of a node can be counted by station. */
  lemma {:induction false} CountByStation(x: Table, ln: NodeId, ps: set<Ptr>)
    requires Indexed(x) && forall p :: p in ps ==> p in x.info && x.info[p].node == ln
    ensures |StasOf(x.info, ps)| == |ps|
  {
    if ps == {} {
      assert StasOf(x.info, ps) == {};
    } else {
      var p :| p in ps;
      var rest := ps - {p};
      CountByStation(x, ln, rest);
      assert StasOf(x.info, ps) == StasOf(x.info, rest) + {x.info[p].sta};
      if x.info[p].sta in StasOf(x.info, rest) {
        var q :| q in rest && x.info[q].sta == x.info[p].sta;
        OneStationEach(x, p, q);
      }
    }
  }

  /** If the connected entries are those of the associated addresses, there are as many. */
  lemma ConnectedIsCounted(x: Table, ln: NodeId, clients: seq<ClientReport>)
    requires Indexed(x)
    requires forall p :: p in x.info && x.info[p].node == ln ==>
      (x.info[p].connected == 1 <==> AssocIn(clients, x.info[p].sta))
    requires forall c :: c in clients ==> exists p :: p in x.info && x.info[p].node == ln && x.info[p].sta == c.addr
    ensures |ConnectedOn(x.info, ln)| <= Counted(clients)
    ensures DistinctAddrs(clients) ==> |ConnectedOn(x.info, ln)| == Counted(clients)
  {
    var ps := ConnectedOn(x.info, ln);
    CountByStation(x, ln, ps);
    CountedAddrs(clients);
    AssocAddrsMeaning(clients);
    forall a | a in AssocAddrs(clients)
      ensures a in StasOf(x.info, ps)
    {
      var c :| c in clients && c.assoc && c.addr == a;
      var p :| p in x.info && x.info[p].node == ln && x.info[p].sta == c.addr;
      assert p in ps;
    }
    assert StasOf(x.info, ps) == AssocAddrs(clients);
  }

  // ---------------------------------------------------------------- mark

  function Marked(si: StaInfo): StaInfo {
    if si.connected != 0 then si.(connected := 2) else si
  }

  /** Set `connected`; the entry's links and times stay. */
  method SetConnected(r: Registry, p: Ptr, connected: nat)
    requires r.Valid() && p in r.table.info
    modifies r`table
    ensures r.Valid()
    ensures r.table == old(r.table).(info := old(r.table).info[p := old(r.table).info[p].(connected := connected)])
  {
    hide Registry.Core, Registry.Valid;
    SetClient(r, p, r.table.info[p].(connected := connected));
  }

  method MarkAll(r: Registry, ln: NodeId)
    requires r.Valid() && ln in r.nodes
    modifies r`table
    ensures r.Valid()
    ensures r.table.stations == old(r.table).stations && r.table.lists == old(r.table).lists
    ensures r.table.info.Keys == old(r.table).info.Keys
    ensures forall p :: p in r.table.info ==>
      r.table.info[p] == if old(r.table).info[p].node == ln then Marked(old(r.table).info[p]) else old(r.table).info[p]
  {
    hide Registry.Valid, Registry.Core, Indexed;
    KnownNow(r);
    ghost var x := r.table;
    NodeMembers(x, ln);
    var list := r.table.lists[ln];
    var i := 0;
    while i < |list|
      invariant 0 <= i <= |list| && r.Valid()
      invariant r.table.stations == x.stations && r.table.lists == x.lists && r.table.info.Keys == x.info.Keys
      invariant forall p :: p in x.info ==> r.table.info[p] == if p in list[..i] then Marked(x.info[p]) else x.info[p]
    {
      assert list[..i + 1] == list[..i] + [list[i]];
      assert list[i] !in list[..i];
      if r.table.info[list[i]].connected != 0 {
        SetConnected(r, list[i], 2);
      }
      i := i + 1;
    }
    assert list[..i] == list;
  }

  // ---------------------------------------------------------------- one reported client

  function LocalFreqs(nodes: map<NodeId, Node>, locals: seq<NodeId>): seq<int>
    requires forall n :: n in locals ==> n in nodes
  {
    seq(|locals|, i requires 0 <= i < |locals| => nodes[locals[i]].freq)
  }

  /** A client asked on the band of one local node is asked on that of the next one next. */
  lemma NextBandIsNextNode(nodes: map<NodeId, Node>, locals: seq<NodeId>, i: nat)
    requires (forall n :: n in locals ==> n in nodes) && i < |locals|
    requires forall j, k :: 0 <= j < k < |locals| ==> nodes[locals[j]].freq != nodes[locals[k]].freq
    ensures NextInCycle(LocalFreqs(nodes, locals), nodes[locals[i]].freq)
         == nodes[locals[if i + 1 < |locals| then i + 1 else 0]].freq
  {
    NextIsSuccessor(LocalFreqs(nodes, locals), i);
  }

  /** An entry after its client was reported. */
  function Polled(cfg: Config, now: nat, own: int, freqs: seq<int>, c: ClientReport, si: StaInfo): StaInfo
    requires freqs != []
  {
    var heard := if c.driver.None? then si
                 else si.(signal := if c.driver.value == NO_SIGNAL then si.signal else c.driver.value, seen := now);
    heard.(
      connected := if c.assoc then 1 else si.connected,
      activeBits := if c.traffic.Some? then c.traffic.value else si.activeBits,
      hearing := Checked(cfg, now, own, heard.signal, freqs, si.hearing).0)
  }

  /** The roam machines do not move, nothing is asked or refused, and a report cache is swept at most. */
  ghost predicate Leaves(cfg: Config, now: nat, x: Table, y: Table) {
    forall p :: p in y.info ==> LeavesEntry(cfg, now, x, p, y.info[p])
  }

  ghost predicate LeavesEntry(cfg: Config, now: nat, x: Table, p: Ptr, si: StaInfo) {
    && si.roam == RoamOf(x, p)
    && (si.hearing.reports == ReportsOf(x, p) || si.hearing.reports == Keep(cfg, now, Some(BROADCAST), ReportsOf(x, p)))
    && si.probe == StatsIn(x, p, Probe) && si.assoc == StatsIn(x, p, Assoc) && si.auth == StatsIn(x, p, Auth)
  }

  lemma LeavesItself(cfg: Config, now: nat, x: Table)
    ensures Leaves(cfg, now, x, x)
  {
  }

  lemma PolledLeaves(cfg: Config, now: nat, own: int, freqs: seq<int>, c: ClientReport, x: Table, p: Ptr, si: StaInfo)
    requires freqs != [] && (if p in x.info then si == x.info[p] else Blank(si))
    ensures LeavesEntry(cfg, now, x, p, Polled(cfg, now, own, freqs, c, si))
  {
  }

  /** What hostapd is told if a request is due. */
  function Asked(p: Ptr, sent: Option<Request>): seq<Event> {
    if sent.Some? then [BeaconRequested(p, sent.value)] else []
  }

  method PollClient(r: Registry, ln: NodeId, c: ClientReport, now: nat)
    returns (p: Ptr, counted: bool, ghost sent: Option<Request>)
    requires r.Valid() && ln in r.nodes && ln in r.locals && r.tq.Timely(now) && r.currentTime <= now
    modifies r`table, r`trace, r.tq
    ensures r.Valid() && r.tq.Timely(now)
    ensures OnlyEntry(old(r.table), r.table, p, ln, c.addr)
    ensures counted <==> r.table.info[p].connected == 1
    ensures forall n :: n in r.locals ==> n in r.nodes
    ensures r.table.info[p] == Polled(r.cfg, r.currentTime, r.nodes[ln].freq, LocalFreqs(r.nodes, r.locals), c,
      Former(old(r.table), p, ln, c.addr, r.nodes[ln].freq, r.currentTime))
    ensures r.tq.pending ==
      if c.driver.None? then old(r.tq.pending)
      else if p in old(r.table).info && old(r.table).info[p].connected == 1 then old(r.tq.pending) - {p}
      else old(r.tq.pending)[p := Stamp(now + r.cfg.localStaTimeout, old(r.tq.serial))]
    ensures LeavesEntry(r.cfg, r.currentTime, old(r.table), p, r.table.info[p])
    ensures sent == Checked(r.cfg, r.currentTime, r.nodes[ln].freq, r.table.info[p].signal, LocalFreqs(r.nodes, r.locals),
      Former(old(r.table), p, ln, c.addr, r.nodes[ln].freq, r.currentTime).hearing).1
    ensures r.trace == old(r.trace) + Asked(p, sent)
  {
    hide Registry.Valid, Registry.Core, Indexed, Known, Checked, LeavesEntry, OnlyEntry;
    KnownNow(r);
    LocalsKnown(r.Now(), r.locals, r.remotes);
    ghost var x := r.table;
    p := EntryOf(r, ln, c.addr);
    EntryFacts(x, r.table, p, ln, c.addr);
    ghost var y, si := r.table, r.table.info[p];
    if c.driver.Some? {
      r.StaInfoUpdate(p, c.driver.value, true, now);
    }
    counted, sent := FinishClient(r, ln, p, c);
    PolledLeaves(r.cfg, r.currentTime, r.nodes[ln].freq, LocalFreqs(r.nodes, r.locals), c, x, p, si);
    EntryRewritten(x, y, p, ln, c.addr, r.table.info[p]);
    assert r.table == y.(info := y.info[p := r.table.info[p]]);
  }

  lemma EntryRewritten(x: Table, y: Table, p: Ptr, ln: NodeId, addr: Addr, si: StaInfo)
    requires OnlyEntry(x, y, p, ln, addr) && si.node == ln && si.sta == addr
    ensures OnlyEntry(x, y.(info := y.info[p := si]), p, ln, addr)
  {
  }

  lemma LocalsKnown(w: World, locals: seq<NodeId>, remotes: seq<NodeId>)
    requires w.order == locals + remotes && forall n :: n in w.order ==> n in w.nodes
    ensures forall n :: n in locals ==> n in w.nodes
  {
    assert forall n :: n in locals ==> n in locals + remotes;
  }

  /** The rest of a report: association, traffic, and perhaps a beacon request. */
  method FinishClient(r: Registry, ln: NodeId, p: Ptr, c: ClientReport) returns (counted: bool, ghost asked: Option<Request>)
    requires r.Valid() && ln in r.nodes && ln in r.locals && p in r.table.info && r.table.info[p].node == ln
    requires forall n :: n in r.locals ==> n in r.nodes
    modifies r`table, r`trace
    ensures r.Valid()
    ensures var (x, si) := (old(r.table), old(r.table).info[p]);
      r.table == x.(info := x.info[p := si.(
        connected := if c.assoc then 1 else si.connected,
        activeBits := if c.traffic.Some? then c.traffic.value else si.activeBits,
        hearing := Checked(r.cfg, r.currentTime, r.nodes[ln].freq, si.signal, LocalFreqs(r.nodes, r.locals), si.hearing).0)])
    ensures counted <==> r.table.info[p].connected == 1
    ensures var si := old(r.table).info[p];
      asked == Checked(r.cfg, r.currentTime, r.nodes[ln].freq, si.signal, LocalFreqs(r.nodes, r.locals), si.hearing).1
    ensures r.trace == old(r.trace) + Asked(p, asked)
  {
    hide Registry.Core, Registry.Valid, ReportsOwned, Represents, Unhurried, Checked, NoneConnects;
    var si := r.table.info[p];
    if c.assoc {
      si := si.(connected := 1);
    }
    counted := si.connected == 1;
    if c.traffic.Some? {
      si := si.(activeBits := c.traffic.value);
    }
    SetClient(r, p, si);
    ghost var x := r.table;
    var h, sent := RequestCheck(r.cfg, r.currentTime, r.nodes[ln].freq, si.signal, LocalFreqs(r.nodes, r.locals),
                                si.hearing);
    asked := sent;
    CheckedOwn(r, p, LocalFreqs(r.nodes, r.locals), r.nodes[ln].freq);
    SetHearing(r, p, h);
    if sent.Some? {
      r.trace := r.trace + [BeaconRequested(p, sent.value)];
    }
  }

  lemma CheckedOwn(r: Registry, p: Ptr, freqs: seq<int>, own: int)
    requires r.Valid() && p in r.table.info && freqs != []
    ensures var si := r.table.info[p];
      forall br :: br in Checked(r.cfg, r.currentTime, own, si.signal, freqs, si.hearing).0.reports ==> br.owner == p
  {
    KeepMembers(r.cfg, r.currentTime, Some(BROADCAST), r.table.info[p].hearing.reports);
    OwnReports(r, p);
  }

  /** Change what a poll may change of an entry. */
  method SetClient(r: Registry, p: Ptr, si: StaInfo)
    requires r.Valid() && p in r.table.info
    requires si.node == r.table.info[p].node && si.sta == r.table.info[p].sta && si.seen == r.table.info[p].seen
    requires si.hearing == r.table.info[p].hearing
    modifies r`table
    ensures r.Valid() && r.table == old(r.table).(info := old(r.table).info[p := si])
  {
    hide Indexed, ReportsOwned, Represents, Unhurried;
    WriteKeepsValid(r, p, si);
    r.Write(p, si);
  }

  // ---------------------------------------------------------------- the loop over the reports

  /** After the first `k` reports: exactly the associated among them are connected, the others as marked. */
  ghost predicate PolledSoFar(x: Table, y: Table, ln: NodeId, clients: seq<ClientReport>, k: nat)
    requires k <= |clients|
  {
    && x.info.Keys <= y.info.Keys && y.lists.Keys == x.lists.Keys
    && (forall p :: p in y.info && p !in x.info ==> y.info[p].node == ln)
    && (forall p :: p in x.info ==> y.info[p].node == x.info[p].node && y.info[p].sta == x.info[p].sta)
    && (forall p :: p in x.info && x.info[p].node != ln ==> y.info[p] == x.info[p])
    && (forall p :: p in y.info && y.info[p].node == ln ==>
          y.info[p].connected ==
            if AssocIn(clients[..k], y.info[p].sta) then 1 else if p in x.info then x.info[p].connected else 0)
    && (forall j :: 0 <= j < k ==> HasEntry(y, ln, clients[j].addr))
  }

  /** Timers of other entries than those of `ln` are as before. */
  ghost predicate OtherTimers(x: Table, before: map<Ptr, Stamp>, after: map<Ptr, Stamp>, ln: NodeId) {
    forall p :: p in x.info && x.info[p].node != ln ==>
      (p in after <==> p in before) && (p in before ==> p in after && after[p] == before[p])
  }

  lemma PollStep(x: Table, y: Table, z: Table, ln: NodeId, clients: seq<ClientReport>, k: nat, p: Ptr)
    requires k < |clients| && Indexed(z) && PolledSoFar(x, y, ln, clients, k)
    requires OnlyEntry(y, z, p, ln, clients[k].addr)
    requires z.info[p].connected == if clients[k].assoc then 1 else if p in y.info then y.info[p].connected else 0
    ensures PolledSoFar(x, z, ln, clients, k + 1)
  {
    hide Indexed, AssocIn;
    var (front, c) := (clients[..k], clients[k]);
    assert clients[..k + 1] == front + [c];
    forall q | q in z.info && z.info[q].node == ln
      ensures z.info[q].connected ==
        if AssocIn(clients[..k + 1], z.info[q].sta) then 1 else if q in x.info then x.info[q].connected else 0
    {
      AssocSnoc(front, c, z.info[q].sta);
      if q != p {
        OneStationEach(z, q, p);
      } else if p !in y.info {
        NobodyReported(y, z, ln, clients, k, p);
        NotYetReported(clients, k, c.addr);
      }
    }
    forall j | 0 <= j < k + 1
      ensures HasEntry(z, ln, clients[j].addr)
    {
      if j < k {
        assert HasEntry(y, ln, clients[j].addr);
        var q :| q in y.info && y.info[q].node == ln && y.info[q].sta == clients[j].addr;
        assert q in z.info && z.info[q].node == ln && z.info[q].sta == clients[j].addr;
      }
    }
  }

  lemma NotYetReported(clients: seq<ClientReport>, k: nat, addr: Addr)
    requires k <= |clients| && forall j :: 0 <= j < k ==> clients[j].addr != addr
    ensures !AssocIn(clients[..k], addr)
  {
  }

  lemma CountStep(y: Table, clients: seq<ClientReport>, k: nat, connected: bool)
    requires k < |clients| && (connected <==> AssocIn(clients[..k + 1], clients[k].addr))
    ensures Counted(clients[..k + 1]) == Counted(clients[..k]) + if connected then 1 else 0
  {
    assert clients[..k + 1][..k] == clients[..k];
  }

  // ---------------------------------------------------------------- the timers of the reported

  /**
    When the timer of a client's entry is due after the reports: the last one with an answer of the
    driver decides. It arms the timer, also if it then says that the client is associated; if an earlier
    report of the same poll said so already, it disarms it.
   */
  ghost function DueAfter(cfg: Config, now: nat, clients: seq<ClientReport>, addr: Addr, was: Option<int>): Option<int> {
    if clients == [] then was
    else
      var (front, c) := (clients[..|clients| - 1], clients[|clients| - 1]);
      if c.addr != addr || c.driver.None? then DueAfter(cfg, now, front, addr, was)
      else if AssocIn(front, addr) then None
      else Some(now + cfg.localStaTimeout)
  }

  /** The timers of the node's entries are what the reports so far make of them. */
  ghost predicate TimersSoFar(cfg: Config, now: nat, y: Table, ln: NodeId, clients: seq<ClientReport>,
                              before: map<Ptr, Stamp>, after: map<Ptr, Stamp>) {
    forall p :: p in y.info && y.info[p].node == ln ==>
      Due(after, p) == DueAfter(cfg, now, clients, y.info[p].sta, Due(before, p))
  }

  lemma {:induction false} DueOfOthers(cfg: Config, now: nat, clients: seq<ClientReport>, addr: Addr, was: Option<int>)
    requires forall j :: 0 <= j < |clients| ==> clients[j].addr != addr
    ensures DueAfter(cfg, now, clients, addr, was) == was && !AssocIn(clients, addr)
  {
    if clients != [] {
      DueOfOthers(cfg, now, clients[..|clients| - 1], addr, was);
    }
  }

  lemma {:induction false} DueSoonIfAtAll(cfg: Config, now: nat, clients: seq<ClientReport>, addr: Addr)
    ensures DueAfter(cfg, now, clients, addr, None).Some? ==>
      DueAfter(cfg, now, clients, addr, None) == Some(now + cfg.localStaTimeout)
  {
    if clients != [] {
      DueSoonIfAtAll(cfg, now, clients[..|clients| - 1], addr);
    }
  }

  /** If nobody is reported twice, an answer of the driver arms the timer, and only that changes it. */
  lemma {:induction false} DueOfOne(cfg: Config, now: nat, clients: seq<ClientReport>, j: nat, was: Option<int>)
    requires DistinctAddrs(clients) && j < |clients|
    ensures DueAfter(cfg, now, clients, clients[j].addr, was)
         == if clients[j].driver.Some? then Some(now + cfg.localStaTimeout) else was
  {
    var n := |clients| - 1;
    var front := clients[..n];
    assert forall i :: 0 <= i < n ==> front[i] == clients[i];
    if j < n {
      DueOfOne(cfg, now, front, j, was);
    } else {
      DueOfOthers(cfg, now, front, clients[n].addr, was);
    }
  }

  /** One report, taken in by `PollClient`. */
  ghost predicate TimerTaken(cfg: Config, now: nat, y: Table, p: Ptr, c: ClientReport,
                             pending: map<Ptr, Stamp>, serial: nat, after: map<Ptr, Stamp>) {
    after ==
      if c.driver.None? then pending
      else if p in y.info && y.info[p].connected == 1 then pending - {p}
      else pending[p := Stamp(now + cfg.localStaTimeout, serial)]
  }

  lemma TimersStep(cfg: Config, now: nat, x: Table, y: Table, z: Table, ln: NodeId, clients: seq<ClientReport>, k: nat,
                   p: Ptr, before: map<Ptr, Stamp>, pending: map<Ptr, Stamp>, after: map<Ptr, Stamp>, serial: nat)
    requires k < |clients| && Indexed(z) && PolledSoFar(x, y, ln, clients, k)
    requires forall p :: p in x.info && x.info[p].node == ln ==> x.info[p].connected != 1
    requires before.Keys <= x.info.Keys && pending.Keys <= y.info.Keys
    requires TimersSoFar(cfg, now, y, ln, clients[..k], before, pending)
    requires OnlyEntry(y, z, p, ln, clients[k].addr) && TimerTaken(cfg, now, y, p, clients[k], pending, serial, after)
    ensures TimersSoFar(cfg, now, z, ln, clients[..k + 1], before, after)
  {
    hide Indexed, AssocIn, DueAfter, PolledSoFar, OnlyEntry;
    forall q | q in z.info && z.info[q].node == ln
      ensures Due(after, q) == DueAfter(cfg, now, clients[..k + 1], z.info[q].sta, Due(before, q))
    {
      DueStep(cfg, now, clients, k, z.info[q].sta, Due(before, q));
      if q == p {
        TimerOfClient(cfg, now, x, y, z, ln, clients, k, p, before, pending, after, serial);
      } else {
        TimerOfOther(y, z, ln, clients[k].addr, p, q);
      }
    }
  }

  lemma DueStep(cfg: Config, now: nat, clients: seq<ClientReport>, k: nat, addr: Addr, was: Option<int>)
    requires k < |clients|
    ensures DueAfter(cfg, now, clients[..k + 1], addr, was)
         == if clients[k].addr != addr || clients[k].driver.None? then DueAfter(cfg, now, clients[..k], addr, was)
            else if AssocIn(clients[..k], addr) then None
            else Some(now + cfg.localStaTimeout)
  {
    hide AssocIn;
    assert clients[..k + 1][..k] == clients[..k];
  }

  lemma TimerOfOther(y: Table, z: Table, ln: NodeId, addr: Addr, p: Ptr, q: Ptr)
    requires Indexed(z) && OnlyEntry(y, z, p, ln, addr) && q in z.info && q != p && z.info[q].node == ln
    ensures q in y.info && y.info[q] == z.info[q] && z.info[q].sta != addr
  {
    OneStationEach(z, q, p);
  }

  lemma TimerOfClient(cfg: Config, now: nat, x: Table, y: Table, z: Table, ln: NodeId, clients: seq<ClientReport>,
                      k: nat, p: Ptr,
                      before: map<Ptr, Stamp>, pending: map<Ptr, Stamp>, after: map<Ptr, Stamp>, serial: nat)
    requires k < |clients| && Indexed(z) && PolledSoFar(x, y, ln, clients, k)
    requires forall p :: p in x.info && x.info[p].node == ln ==> x.info[p].connected != 1
    requires before.Keys <= x.info.Keys && pending.Keys <= y.info.Keys
    requires TimersSoFar(cfg, now, y, ln, clients[..k], before, pending)
    requires OnlyEntry(y, z, p, ln, clients[k].addr) && TimerTaken(cfg, now, y, p, clients[k], pending, serial, after)
    ensures p in z.info && z.info[p].sta == clients[k].addr
    ensures Due(after, p)
         == if clients[k].driver.None? then DueAfter(cfg, now, clients[..k], clients[k].addr, Due(before, p))
            else if AssocIn(clients[..k], clients[k].addr) then None
            else Some(now + cfg.localStaTimeout)
  {
    hide Indexed, AssocIn, DueAfter, HasEntry;
    if p !in y.info {
      assert forall j :: 0 <= j < k ==> HasEntry(y, ln, clients[j].addr);
      NobodyReported(y, z, ln, clients, k, p);
      DueOfOthers(cfg, now, clients[..k], clients[k].addr, None);
    }
  }

  /** An entry just made is of a client not reported before. */
  lemma NobodyReported(y: Table, z: Table, ln: NodeId, clients: seq<ClientReport>, k: nat, p: Ptr)
    requires k < |clients| && Indexed(z) && forall j :: 0 <= j < k ==> HasEntry(y, ln, clients[j].addr)
    requires OnlyEntry(y, z, p, ln, clients[k].addr) && p !in y.info
    ensures forall j :: 0 <= j < k ==> clients[j].addr != clients[k].addr
  {
    hide Indexed;
    forall j | 0 <= j < k
      ensures clients[j].addr != clients[k].addr
    {
      assert HasEntry(y, ln, clients[j].addr);
      var q :| q in y.info && y.info[q].node == ln && y.info[q].sta == clients[j].addr;
      OneStationEach(z, q, p);
    }
  }

  // ---------------------------------------------------------------- what the reports write

  /** The entry of a client after all reports about it, one by one. */
  function PolledBy(cfg: Config, clock: nat, own: int, freqs: seq<int>, clients: seq<ClientReport>, addr: Addr,
                    si: StaInfo): StaInfo
    requires freqs != []
  {
    if clients == [] then si
    else
      var (c, before) := (clients[|clients| - 1], PolledBy(cfg, clock, own, freqs, clients[..|clients| - 1], addr, si));
      if c.addr == addr then Polled(cfg, clock, own, freqs, c, before) else before
  }

  ghost predicate PolledEntries(cfg: Config, clock: nat, own: int, freqs: seq<int>, ln: NodeId, clients: seq<ClientReport>,
                                x: Table, y: Table)
    requires freqs != []
  {
    forall p :: p in y.info && y.info[p].node == ln ==>
      y.info[p] == PolledBy(cfg, clock, own, freqs, clients, y.info[p].sta, Former(x, p, ln, y.info[p].sta, own, clock))
  }

  lemma NothingWritten(cfg: Config, clock: nat, own: int, freqs: seq<int>, ln: NodeId, clients: seq<ClientReport>, x: Table)
    requires freqs != []
    ensures PolledEntries(cfg, clock, own, freqs, ln, clients[..0], x, x)
  {
  }

  lemma {:induction false} NotWritten(cfg: Config, clock: nat, own: int, freqs: seq<int>, clients: seq<ClientReport>,
                                      addr: Addr,
                                      si: StaInfo)
    requires freqs != [] && forall j :: 0 <= j < |clients| ==> clients[j].addr != addr
    ensures PolledBy(cfg, clock, own, freqs, clients, addr, si) == si
  {
    if clients != [] {
      NotWritten(cfg, clock, own, freqs, clients[..|clients| - 1], addr, si);
    }
  }

  lemma WrittenStep(cfg: Config, clock: nat, own: int, freqs: seq<int>, ln: NodeId, clients: seq<ClientReport>, k: nat,
                    x: Table, y: Table, z: Table, p: Ptr)
    requires freqs != [] && k < |clients| && Indexed(z) && x.info.Keys <= y.info.Keys
    requires PolledEntries(cfg, clock, own, freqs, ln, clients[..k], x, y) && OnlyEntry(y, z, p, ln, clients[k].addr)
    requires forall j :: 0 <= j < k ==> HasEntry(y, ln, clients[j].addr)
    requires z.info[p] == Polled(cfg, clock, own, freqs, clients[k], Former(y, p, ln, clients[k].addr, own, clock))
    ensures PolledEntries(cfg, clock, own, freqs, ln, clients[..k + 1], x, z)
  {
    hide Indexed, Polled, HasEntry;
    assert clients[..k + 1][..k] == clients[..k];
    forall q | q in z.info && z.info[q].node == ln
      ensures z.info[q] == PolledBy(cfg, clock, own, freqs, clients[..k + 1], z.info[q].sta,
                                    Former(x, q, ln, z.info[q].sta, own, clock))
    {
      if q != p {
        OneStationEach(z, q, p);
      } else if p !in y.info {
        NobodyReported(y, z, ln, clients, k, p);
        NotWritten(cfg, clock, own, freqs, clients[..k], clients[k].addr, Former(x, p, ln, clients[k].addr, own, clock));
      }
    }
  }

  /** What a report writes does not depend on who is connected. */
  lemma {:induction false} MarksDoNotMatter(cfg: Config, clock: nat, own: int, freqs: seq<int>, clients: seq<ClientReport>,
                                            addr: Addr, si: StaInfo, m: nat, n: nat)
    requires freqs != []
    ensures PolledBy(cfg, clock, own, freqs, clients, addr, si.(connected := m)).(connected := n)
         == PolledBy(cfg, clock, own, freqs, clients, addr, si).(connected := n)
  {
    hide Checked;
    if clients != [] {
      var front := clients[..|clients| - 1];
      MarksDoNotMatter(cfg, clock, own, freqs, front, addr, si, m, n);
      var (a, b) := (PolledBy(cfg, clock, own, freqs, front, addr, si.(connected := m)),
                     PolledBy(cfg, clock, own, freqs, front, addr, si));
      assert a.(connected := n) == b.(connected := n);
      assert a == b.(connected := a.connected);
    }
  }

  /** Every entry of the node after the poll: what the reports wrote, connected if reported associated. */
  ghost predicate PollWrites(cfg: Config, clock: nat, own: int, freqs: seq<int>, ln: NodeId, clients: seq<ClientReport>,
                             x: Table, z: Table)
    requires freqs != []
  {
    forall p :: p in z.info && z.info[p].node == ln ==>
      z.info[p] ==
        PolledBy(cfg, clock, own, freqs, clients, z.info[p].sta, Former(x, p, ln, z.info[p].sta, own, clock)).(
          connected := if AssocIn(clients, z.info[p].sta) then 1 else 0)
  }

  // ---------------------------------------------------------------- what the reports ask

  /** The signal after all reports about a client; one the driver cannot tell is as before. */
  function SignalAfter(clients: seq<ClientReport>, addr: Addr, signal: int): int {
    if clients == [] then signal
    else
      var (c, before) := (clients[|clients| - 1], SignalAfter(clients[..|clients| - 1], addr, signal));
      if c.addr == addr && c.driver.Some? && c.driver.value != 0xff then c.driver.value else before
  }

  /** The checks whether a beacon request is due: one for each report about the client. */
  function ChecksOf(clock: nat, clients: seq<ClientReport>, addr: Addr, signal: int): seq<Check> {
    if clients == [] then []
    else
      ChecksOf(clock, clients[..|clients| - 1], addr, signal)
      + if clients[|clients| - 1].addr == addr then [Check(clock, SignalAfter(clients, addr, signal))] else []
  }

  /** The requests to one client among the messages. */
  ghost function RequestsTo(p: Ptr, events: seq<Event>): seq<Request> {
    if events == [] then []
    else
      var e := events[|events| - 1];
      RequestsTo(p, events[..|events| - 1]) + if e.BeaconRequested? && e.p == p then [e.request] else []
  }

  lemma RequestsWith(p: Ptr, events: seq<Event>, q: Ptr, sent: Option<Request>)
    ensures RequestsTo(p, events + Asked(q, sent))
         == RequestsTo(p, events) + if p == q && sent.Some? then [sent.value] else []
  {
    if sent.Some? {
      assert (events + [BeaconRequested(q, sent.value)])[..|events|] == events;
    } else {
      assert events + [] == events;
    }
  }

  /** The checks are what the reports do to the hearing map. */
  lemma {:induction false} ChecksAreRun(cfg: Config, clock: nat, own: int, freqs: seq<int>, clients: seq<ClientReport>,
                                        addr: Addr,
                                        si: StaInfo)
    requires freqs != []
    ensures var after := PolledBy(cfg, clock, own, freqs, clients, addr, si);
      && after.signal == SignalAfter(clients, addr, si.signal)
      && after.hearing == HearingAfter(cfg, own, freqs, si.hearing, ChecksOf(clock, clients, addr, si.signal))
  {
    hide Checked;
    if clients != [] {
      var front := clients[..|clients| - 1];
      ChecksAreRun(cfg, clock, own, freqs, front, addr, si);
      RequestsGoOn(cfg, own, freqs, si.hearing, ChecksOf(clock, front, addr, si.signal),
                   Check(clock, SignalAfter(clients, addr, si.signal)));
      assert ChecksOf(clock, front, addr, si.signal) + [] == ChecksOf(clock, front, addr, si.signal);
    }
  }

  function BitsAfter(clients: seq<ClientReport>, addr: Addr, bits: nat): nat {
    if clients == [] then bits
    else
      var (c, before) := (clients[|clients| - 1], BitsAfter(clients[..|clients| - 1], addr, bits));
      if c.addr == addr && c.traffic.Some? then c.traffic.value else before
  }

  /** The last bit rate told counts, a client the driver knows is seen, and nothing else of an entry is touched. */
  lemma {:induction false} PolledInNumbers(cfg: Config, clock: nat, own: int, freqs: seq<int>, clients: seq<ClientReport>,
                                           addr: Addr, si: StaInfo)
    requires freqs != []
    ensures var after := PolledBy(cfg, clock, own, freqs, clients, addr, si);
      && after.activeBits == BitsAfter(clients, addr, si.activeBits)
      && after.seen == (if exists c :: c in clients && c.addr == addr && c.driver.Some? then clock else si.seen)
      && after.node == si.node && after.sta == si.sta && after.created == si.created && after.roam == si.roam
      && after.probe == si.probe && after.assoc == si.assoc && after.auth == si.auth && after.kickCount == si.kickCount
  {
    hide Checked;
    if clients != [] {
      var (front, c) := (clients[..|clients| - 1], clients[|clients| - 1]);
      PolledInNumbers(cfg, clock, own, freqs, front, addr, si);
      assert clients == front + [c];
    }
  }

  /** For each entry of the node, the requests sent to its client are exactly those of the run of its checks. */
  ghost predicate PollAsks(cfg: Config, clock: nat, own: int, freqs: seq<int>, ln: NodeId, clients: seq<ClientReport>,
                           x: Table, y: Table, asked: seq<Event>)
    requires freqs != []
  {
    forall p :: p in y.info && y.info[p].node == ln ==>
      var si := Former(x, p, ln, y.info[p].sta, own, clock);
      RequestsTo(p, asked) == Requests(cfg, own, freqs, si.hearing, ChecksOf(clock, clients, y.info[p].sta, si.signal))
  }

  lemma NothingAsked(cfg: Config, clock: nat, own: int, freqs: seq<int>, ln: NodeId, clients: seq<ClientReport>, x: Table)
    requires freqs != []
    ensures PollAsks(cfg, clock, own, freqs, ln, clients[..0], x, x, [])
  {
  }

  lemma {:induction false} NotAsked(clock: nat, clients: seq<ClientReport>, addr: Addr, signal: int)
    requires forall j :: 0 <= j < |clients| ==> clients[j].addr != addr
    ensures ChecksOf(clock, clients, addr, signal) == [] && SignalAfter(clients, addr, signal) == signal
  {
    if clients != [] {
      NotAsked(clock, clients[..|clients| - 1], addr, signal);
    }
  }

  /** A request to an entry that is made for it would be the first one. */
  lemma {:induction false} NobodyAskedYet(p: Ptr, events: seq<Event>, y: Table, ln: NodeId)
    requires OnlyAsks(events, y, ln) && p !in y.info
    ensures RequestsTo(p, events) == []
  {
    if events != [] {
      assert events[|events| - 1] in events;
      NobodyAskedYet(p, events[..|events| - 1], y, ln);
    }
  }

  lemma AskedStep(cfg: Config, clock: nat, own: int, freqs: seq<int>, ln: NodeId, clients: seq<ClientReport>, k: nat,
                  x: Table, y: Table, z: Table, p: Ptr, asked: seq<Event>, sent: Option<Request>)
    requires freqs != [] && k < |clients| && Indexed(z) && x.info.Keys <= y.info.Keys && OnlyAsks(asked, y, ln)
    requires PolledEntries(cfg, clock, own, freqs, ln, clients[..k], x, y) && OnlyEntry(y, z, p, ln, clients[k].addr)
    requires PollAsks(cfg, clock, own, freqs, ln, clients[..k], x, y, asked)
    requires forall j :: 0 <= j < k ==> HasEntry(y, ln, clients[j].addr)
    requires var (si, c) := (Former(y, p, ln, clients[k].addr, own, clock), clients[k]);
      sent == Checked(cfg, clock, own, if c.driver.Some? && c.driver.value != 0xff then c.driver.value else si.signal, freqs,
                      si.hearing).1
    ensures PollAsks(cfg, clock, own, freqs, ln, clients[..k + 1], x, z, asked + Asked(p, sent))
  {
    hide Indexed, HasEntry, Checked, OnlyAsks, PolledBy, Asked, RequestsTo;
    assert clients[..k + 1][..k] == clients[..k];
    forall q | q in z.info && z.info[q].node == ln
      ensures var si := Former(x, q, ln, z.info[q].sta, own, clock);
        RequestsTo(q, asked + Asked(p, sent))
        == Requests(cfg, own, freqs, si.hearing, ChecksOf(clock, clients[..k + 1], z.info[q].sta, si.signal))
    {
      RequestsWith(q, asked, p, sent);
      if q != p {
        OneStationEach(z, q, p);
        var signal := Former(x, q, ln, z.info[q].sta, own, clock).signal;
        assert ChecksOf(clock, clients[..k], z.info[q].sta, signal) + [] == ChecksOf(clock, clients[..k], z.info[q].sta,
                                                                                     signal);
      } else {
        var (addr, si) := (clients[k].addr, Former(x, p, ln, clients[k].addr, own, clock));
        if p !in y.info {
          NobodyReported(y, z, ln, clients, k, p);
          NotAsked(clock, clients[..k], addr, si.signal);
          NobodyAskedYet(p, asked, y, ln);
        } else {
          ChecksAreRun(cfg, clock, own, freqs, clients[..k], addr, si);
        }
        RequestsGoOn(cfg, own, freqs, si.hearing, ChecksOf(clock, clients[..k], addr, si.signal),
                     Check(clock, SignalAfter(clients[..k + 1], addr, si.signal)));
      }
    }
  }

  // ---------------------------------------------------------------- the loop

  lemma LeavesStep(cfg: Config, now: nat, x: Table, y: Table, z: Table, p: Ptr, ln: NodeId, addr: Addr)
    requires x.info.Keys <= y.info.Keys && Leaves(cfg, now, x, y) && OnlyEntry(y, z, p, ln, addr)
    requires LeavesEntry(cfg, now, y, p, z.info[p])
    ensures Leaves(cfg, now, x, z)
  {
    forall q | q in z.info
      ensures LeavesEntry(cfg, now, x, q, z.info[q])
    {
      if q in y.info {
        assert LeavesEntry(cfg, now, x, q, y.info[q]);
        KeepTwice(cfg, now, Some(BROADCAST), ReportsOf(x, q));
      }
    }
  }

  /** All that hostapd is told is to ask clients of the node for beacon reports. */
  ghost predicate OnlyAsks(events: seq<Event>, y: Table, ln: NodeId) {
    forall e :: e in events ==> e.BeaconRequested? && e.p in y.info && y.info[e.p].node == ln
  }

  lemma AsksStep(events: seq<Event>, y: Table, z: Table, p: Ptr, ln: NodeId, addr: Addr, sent: Option<Request>)
    requires OnlyAsks(events, y, ln) && OnlyEntry(y, z, p, ln, addr)
    ensures OnlyAsks(events + Asked(p, sent), z, ln)
  {
  }

  lemma PollBegins(x: Table, ln: NodeId, clients: seq<ClientReport>)
    ensures PolledSoFar(x, x, ln, clients, 0) && Counted(clients[..0]) == 0 && OnlyAsks([], x, ln)
  {
    assert clients[..0] == [];
  }

  /** The first `k` reports are taken in: entries, timers, what was written and asked, and the count. */
  ghost predicate TakenIn(cfg: Config, clock: nat, now: nat, own: int, freqs: seq<int>, ln: NodeId,
                          clients: seq<ClientReport>, k: nat,
                          x: Table, y: Table, before: map<Ptr, Stamp>, after: map<Ptr, Stamp>, asked: seq<Event>,
                            nAssoc: nat) {
    && freqs != [] && k <= |clients|
    && PolledSoFar(x, y, ln, clients, k)
    && OtherTimers(x, before, after, ln)
    && TimersSoFar(cfg, now, y, ln, clients[..k], before, after)
    && Leaves(cfg, clock, x, y)
    && OnlyAsks(asked, y, ln)
    && PolledEntries(cfg, clock, own, freqs, ln, clients[..k], x, y)
    && PollAsks(cfg, clock, own, freqs, ln, clients[..k], x, y, asked)
    && nAssoc == Counted(clients[..k])
  }

  lemma NothingTakenIn(cfg: Config, clock: nat, now: nat, own: int, freqs: seq<int>, ln: NodeId, clients: seq<ClientReport>,
                       x: Table, before: map<Ptr, Stamp>)
    requires freqs != []
    ensures TakenIn(cfg, clock, now, own, freqs, ln, clients, 0, x, x, before, before, [], 0)
  {
    hide PolledSoFar, Counted, OtherTimers, TimersSoFar, Leaves, OnlyAsks, PolledEntries, PollAsks;
    LeavesItself(cfg, clock, x);
    NothingAsked(cfg, clock, own, freqs, ln, clients, x);
    NothingWritten(cfg, clock, own, freqs, ln, clients, x);
    PollBegins(x, ln, clients);
    SameTimers(cfg, now, x, before, ln, clients);
  }

  lemma OneMoreTakenIn(cfg: Config, clock: nat, now: nat, own: int, freqs: seq<int>, ln: NodeId,
                       clients: seq<ClientReport>, k: nat,
                       x: Table, y: Table, z: Table, before: map<Ptr, Stamp>, pending: map<Ptr, Stamp>, serial: nat,
                         after: map<Ptr, Stamp>,
                       asked: seq<Event>, nAssoc: nat, p: Ptr, counted: bool, sent: Option<Request>)
    requires k < |clients| && Indexed(z) && before.Keys <= x.info.Keys && pending.Keys <= y.info.Keys
    requires forall p :: p in x.info && x.info[p].node == ln ==> x.info[p].connected != 1
    requires TakenIn(cfg, clock, now, own, freqs, ln, clients, k, x, y, before, pending, asked, nAssoc)
    requires OnlyEntry(y, z, p, ln, clients[k].addr) && TimerTaken(cfg, now, y, p, clients[k], pending, serial, after)
    requires p in z.info && z.info[p] == Polled(cfg, clock, own, freqs, clients[k], Former(y, p, ln, clients[k].addr, own,
                                                                                           clock))
    requires LeavesEntry(cfg, clock, y, p, z.info[p]) && (counted <==> z.info[p].connected == 1)
    requires sent == Checked(cfg, clock, own, z.info[p].signal, freqs, Former(y, p, ln, clients[k].addr, own,
                                                                              clock).hearing).1
    ensures TakenIn(cfg, clock, now, own, freqs, ln, clients, k + 1, x, z, before, after, asked + Asked(p, sent),
                    nAssoc + if counted then 1 else 0)
  {
    hide PolledSoFar, Counted, OtherTimers, TimersSoFar, Leaves, OnlyAsks, PolledEntries, AssocIn, Indexed, LeavesEntry,
      Asked;
    hide Polled, Former, TimerTaken, OnlyEntry, PollAsks, Checked;
    PolledConnects(cfg, clock, own, freqs, clients[k], Former(y, p, ln, clients[k].addr, own, clock));
    FormerConnects(y, p, ln, clients[k].addr, own, clock);
    CountedIn(x, y, z, ln, clients, k, p, counted);
    TimersTakenIn(cfg, now, x, y, z, ln, clients, k, p, before, pending, after, serial);
    PolledKeys(x, y, ln, clients, k);
    EntriesSoFar(x, y, ln, clients, k);
    LeavesStep(cfg, clock, x, y, z, p, ln, clients[k].addr);
    AskedStep(cfg, clock, own, freqs, ln, clients, k, x, y, z, p, asked, sent);
    AsksStep(asked, y, z, p, ln, clients[k].addr, sent);
    WrittenStep(cfg, clock, own, freqs, ln, clients, k, x, y, z, p);
  }

  lemma CountedIn(x: Table, y: Table, z: Table, ln: NodeId, clients: seq<ClientReport>, k: nat, p: Ptr, counted: bool)
    requires k < |clients| && Indexed(z) && PolledSoFar(x, y, ln, clients, k) && OnlyEntry(y, z, p, ln, clients[k].addr)
    requires forall p :: p in x.info && x.info[p].node == ln ==> x.info[p].connected != 1
    requires z.info[p].connected == if clients[k].assoc then 1 else if p in y.info then y.info[p].connected else 0
    requires counted <==> z.info[p].connected == 1
    ensures PolledSoFar(x, z, ln, clients, k + 1)
    ensures Counted(clients[..k + 1]) == Counted(clients[..k]) + if counted then 1 else 0
  {
    hide PolledSoFar, Counted, AssocIn, Indexed, OnlyEntry;
    EntryFacts(y, z, p, ln, clients[k].addr);
    PollStep(x, y, z, ln, clients, k, p);
    ConnectedAfter(x, z, ln, clients, k + 1, p);
    CountStep(z, clients, k, counted);
  }

  lemma TimersTakenIn(cfg: Config, now: nat, x: Table, y: Table, z: Table, ln: NodeId, clients: seq<ClientReport>, k: nat,
                      p: Ptr,
                      before: map<Ptr, Stamp>, pending: map<Ptr, Stamp>, after: map<Ptr, Stamp>, serial: nat)
    requires k < |clients| && Indexed(z) && PolledSoFar(x, y, ln, clients, k)
    requires forall p :: p in x.info && x.info[p].node == ln ==> x.info[p].connected != 1
    requires before.Keys <= x.info.Keys && pending.Keys <= y.info.Keys
    requires OtherTimers(x, before, pending, ln) && TimersSoFar(cfg, now, y, ln, clients[..k], before, pending)
    requires OnlyEntry(y, z, p, ln, clients[k].addr) && TimerTaken(cfg, now, y, p, clients[k], pending, serial, after)
    ensures OtherTimers(x, before, after, ln) && TimersSoFar(cfg, now, z, ln, clients[..k + 1], before, after)
  {
    TimerTouchesOne(cfg, now, y, p, clients[k], pending, serial, after);
    hide PolledSoFar, OtherTimers, TimersSoFar, Indexed, OnlyEntry, TimerTaken;
    TimersOfStep(x, y, ln, clients, k, p, clients[k].addr, z, before, pending, after);
    TimersStep(cfg, now, x, y, z, ln, clients, k, p, before, pending, after, serial);
  }

  lemma PolledConnects(cfg: Config, clock: nat, own: int, freqs: seq<int>, c: ClientReport, si: StaInfo)
    requires freqs != []
    ensures Polled(cfg, clock, own, freqs, c, si).connected == if c.assoc then 1 else si.connected
    ensures Polled(cfg, clock, own, freqs, c, si).signal
         == if c.driver.Some? && c.driver.value != 0xff then c.driver.value else si.signal
  {
  }

  lemma FormerConnects(y: Table, p: Ptr, node: NodeId, addr: Addr, freq: int, clock: nat)
    ensures Former(y, p, node, addr, freq, clock).connected == if p in y.info then y.info[p].connected else 0
  {
  }

  lemma TimerTouchesOne(cfg: Config, now: nat, y: Table, p: Ptr, c: ClientReport, pending: map<Ptr, Stamp>, serial: nat,
                        after: map<Ptr, Stamp>)
    requires TimerTaken(cfg, now, y, p, c, pending, serial, after)
    ensures after - {p} == pending - {p}
  {
  }

  /** Take in the reports one by one, counting the associated clients. */
  method PollLoop(r: Registry, ln: NodeId, clients: seq<ClientReport>, now: nat) returns (nAssoc: nat,
                  ghost asked: seq<Event>)
    requires r.Valid() && ln in r.nodes && ln in r.locals && r.tq.Timely(now) && r.currentTime <= now
    requires forall p :: p in r.table.info && r.table.info[p].node == ln ==> r.table.info[p].connected != 1
    modifies r`table, r`trace, r.tq
    ensures r.Valid() && r.tq.Timely(now)
    ensures PolledSoFar(old(r.table), r.table, ln, clients, |clients|)
    ensures OtherTimers(old(r.table), old(r.tq.pending), r.tq.pending, ln)
    ensures TimersSoFar(r.cfg, now, r.table, ln, clients, old(r.tq.pending), r.tq.pending)
    ensures Leaves(r.cfg, r.currentTime, old(r.table), r.table)
    ensures r.trace == old(r.trace) + asked && OnlyAsks(asked, r.table, ln)
    ensures forall n :: n in r.locals ==> n in r.nodes
    ensures PolledEntries(r.cfg, r.currentTime, r.nodes[ln].freq, LocalFreqs(r.nodes, r.locals), ln, clients,
                          old(r.table), r.table)
    ensures PollAsks(r.cfg, r.currentTime, r.nodes[ln].freq, LocalFreqs(r.nodes, r.locals), ln, clients,
                     old(r.table), r.table, asked)
    ensures nAssoc == Counted(clients)
  {
    hide Registry.Valid, Registry.Core, Indexed, TakenIn;
    nAssoc, asked := 0, [];
    KnownNow(r);
    LocalsKnown(r.Now(), r.locals, r.remotes);
    ghost var x, before, own, freqs := r.table, r.tq.pending, r.nodes[ln].freq, LocalFreqs(r.nodes, r.locals);
    TimersNow(r);
    NothingTakenIn(r.cfg, r.currentTime, now, own, freqs, ln, clients, x, before);
    hide *;
    var k := 0;
    while k < |clients|
      invariant 0 <= k <= |clients| && r.Valid() && r.tq.Timely(now)
      invariant TakenIn(r.cfg, r.currentTime, now, own, freqs, ln, clients, k, x, r.table, before, r.tq.pending, asked,
                        nAssoc)
      invariant r.trace == old(r.trace) + asked
    {
      ghost var told := asked;
      nAssoc, asked := TakeReport(r, ln, clients, k, now, x, before, freqs, nAssoc, asked);
      assert old(r.trace) + told + asked[|told|..] == old(r.trace) + asked;
      k := k + 1;
    }
    assert clients[..k] == clients;
    AllTakenIn(r.cfg, r.currentTime, now, own, freqs, ln, clients, x, r.table, before, r.tq.pending, asked, nAssoc);
  }

  lemma AllTakenIn(cfg: Config, clock: nat, now: nat, own: int, freqs: seq<int>, ln: NodeId, clients: seq<ClientReport>,
                   x: Table, y: Table, before: map<Ptr, Stamp>, after: map<Ptr, Stamp>, asked: seq<Event>, nAssoc: nat)
    requires TakenIn(cfg, clock, now, own, freqs, ln, clients, |clients|, x, y, before, after, asked, nAssoc)
    ensures PolledSoFar(x, y, ln, clients, |clients|) && OtherTimers(x, before, after, ln)
    ensures TimersSoFar(cfg, now, y, ln, clients, before, after) && Leaves(cfg, clock, x, y) && OnlyAsks(asked, y, ln)
    ensures freqs != [] && PolledEntries(cfg, clock, own, freqs, ln, clients, x, y) && nAssoc == Counted(clients)
    ensures PollAsks(cfg, clock, own, freqs, ln, clients, x, y, asked)
  {
    assert clients[..|clients|] == clients;
    hide PolledSoFar, Counted, OtherTimers, TimersSoFar, Leaves, OnlyAsks, PolledEntries, PollAsks;
  }

  /** One round of the loop. */
  method TakeReport(r: Registry, ln: NodeId, clients: seq<ClientReport>, k: nat, now: nat, ghost x: Table,
                    ghost before: map<Ptr, Stamp>, ghost freqs: seq<int>, nAssoc: nat, ghost asked: seq<Event>)
    returns (nAssoc': nat, ghost asked': seq<Event>)
    requires r.Valid() && ln in r.nodes && ln in r.locals && r.tq.Timely(now) && r.currentTime <= now && k < |clients|
    requires forall n :: n in r.locals ==> n in r.nodes
    requires freqs == LocalFreqs(r.nodes, r.locals) && before.Keys <= x.info.Keys
    requires forall p :: p in x.info && x.info[p].node == ln ==> x.info[p].connected != 1
    requires TakenIn(r.cfg, r.currentTime, now, r.nodes[ln].freq, freqs, ln, clients, k, x, r.table, before, r.tq.pending,
                     asked, nAssoc)
    modifies r`table, r`trace, r.tq
    ensures r.Valid() && r.tq.Timely(now) && asked <= asked' && r.trace == old(r.trace) + asked'[|asked|..]
    ensures TakenIn(r.cfg, r.currentTime, now, r.nodes[ln].freq, freqs, ln, clients, k + 1, x, r.table, before, r.tq.pending,
                    asked', nAssoc')
  {
    hide Registry.Valid, Registry.Core, Indexed, TakenIn, Polled, Former, OnlyEntry, LeavesEntry, Checked;
    ghost var y, pending, serial := r.table, r.tq.pending, r.tq.serial;
    TimersNow(r);
    var p, counted;
    ghost var sent;
    p, counted, sent := PollClient(r, ln, clients[k], now);
    KnownNow(r);
    EntryFacts(y, r.table, p, ln, clients[k].addr);
    OneMoreTakenIn(r.cfg, r.currentTime, now, r.nodes[ln].freq, freqs, ln, clients, k, x, y, r.table, before, pending,
                   serial,
                   r.tq.pending, asked, nAssoc, p, counted, sent);
    nAssoc', asked' := nAssoc, asked + Asked(p, sent);
    if counted {
      nAssoc' := nAssoc + 1;
    }
  }

  lemma PolledKeys(x: Table, y: Table, ln: NodeId, clients: seq<ClientReport>, k: nat)
    requires k <= |clients| && PolledSoFar(x, y, ln, clients, k)
    ensures x.info.Keys <= y.info.Keys
  {
  }

  lemma EntriesSoFar(x: Table, y: Table, ln: NodeId, clients: seq<ClientReport>, k: nat)
    requires k <= |clients| && PolledSoFar(x, y, ln, clients, k)
    ensures forall j :: 0 <= j < k ==> HasEntry(y, ln, clients[j].addr)
  {
  }

  lemma SameTimers(cfg: Config, now: nat, x: Table, pending: map<Ptr, Stamp>, ln: NodeId, clients: seq<ClientReport>)
    ensures OtherTimers(x, pending, pending, ln) && TimersSoFar(cfg, now, x, ln, clients[..0], pending, pending)
  {
  }

  lemma TimersOfStep(x: Table, y: Table, ln: NodeId, clients: seq<ClientReport>, k: nat, p: Ptr, addr: Addr, z: Table,
                     before: map<Ptr, Stamp>, pending: map<Ptr, Stamp>, after: map<Ptr, Stamp>)
    requires k < |clients| && PolledSoFar(x, y, ln, clients, k) && OnlyEntry(y, z, p, ln, addr)
    requires OtherTimers(x, before, pending, ln) && after - {p} == pending - {p}
    ensures OtherTimers(x, before, after, ln)
  {
    forall q | q in x.info && x.info[q].node != ln
      ensures (q in after <==> q in pending) && (q in pending ==> after[q] == pending[q])
    {
      assert q != p;
      assert q in after <==> q in after - {p};
      assert q in pending <==> q in pending - {p};
      if q in pending {
        assert after[q] == (after - {p})[q] && pending[q] == (pending - {p})[q];
      }
    }
  }

  lemma ConnectedAfter(x: Table, y: Table, ln: NodeId, clients: seq<ClientReport>, k: nat, p: Ptr)
    requires 0 < k <= |clients| && PolledSoFar(x, y, ln, clients, k)
    requires forall p :: p in x.info && x.info[p].node == ln ==> x.info[p].connected != 1
    requires p in y.info && y.info[p].node == ln
    ensures y.info[p].connected == 1 <==> AssocIn(clients[..k], y.info[p].sta)
  {
  }

  // ---------------------------------------------------------------- sweep

  /** A marked entry that the sweep has reached is disconnected and expires a timeout after `now`, any other stays. */
  ghost predicate SweptAt(cfg: Config, si: StaInfo, si': StaInfo, reached: bool, now: nat, was: Option<Stamp>,
                          stamp: Option<Stamp>) {
    if reached && si.connected == 2 then
      si' == si.(connected := 0) && stamp.Some? && stamp.value.due == now + cfg.localStaTimeout
    else
      si' == si && stamp == was
  }

  /** The sweep has reached the entries of `done`. */
  ghost predicate Swept(cfg: Config, x: Table, y: Table, done: seq<Ptr>, now: nat, before: map<Ptr, Stamp>,
                        after: map<Ptr, Stamp>) {
    && y.stations == x.stations && y.lists == x.lists && y.info.Keys == x.info.Keys
    && forall p :: p in x.info ==>
         SweptAt(cfg, x.info[p], y.info[p], p in done, now, StampOf(before, p), StampOf(after, p))
  }

  lemma SweepStep(cfg: Config, x: Table, y: Table, z: Table, list: seq<Ptr>, i: nat, now: nat,
                  before: map<Ptr, Stamp>, pending: map<Ptr, Stamp>, after: map<Ptr, Stamp>, serial: nat)
    requires i < |list| && NoDup(list) && list[i] in x.info
    requires Swept(cfg, x, y, list[..i], now, before, pending)
    requires if y.info[list[i]].connected == 2 then
        && z == y.(info := y.info[list[i] := y.info[list[i]].(connected := 0)])
        && after == pending[list[i] := Stamp(now + cfg.localStaTimeout, serial)]
      else z == y && after == pending
    ensures Swept(cfg, x, z, list[..i + 1], now, before, after)
  {
    var p := list[i];
    NextOfList(list, i);
    assert SweptAt(cfg, x.info[p], y.info[p], false, now, StampOf(before, p), StampOf(pending, p));
    assert SweptAt(cfg, x.info[p], z.info[p], true, now, StampOf(before, p), StampOf(after, p));
    hide SweptAt;
    forall q | q in x.info
      ensures SweptAt(cfg, x.info[q], z.info[q], q in list[..i + 1], now, StampOf(before, q), StampOf(after, q))
    {
      if q != p {
        assert z.info[q] == y.info[q] && StampOf(after, q) == StampOf(pending, q);
      }
    }
  }

  /** Disconnect one entry that was not reported any more, and arm its timer. */
  method SweepOne(r: Registry, p: Ptr, now: nat)
    requires r.Valid() && p in r.table.info && r.tq.Timely(now) && r.currentTime <= now
    modifies r`table, r.tq
    ensures r.Valid() && r.tq.Timely(now)
    ensures r.table == old(r.table).(info := old(r.table).info[p := old(r.table).info[p].(connected := 0)])
    ensures r.tq.pending == old(r.tq.pending)[p := Stamp(now + r.cfg.localStaTimeout, old(r.tq.serial))]
  {
    hide Indexed, ReportsOwned, Represents;
    SetConnected(r, p, 0);
    r.UpdateTimeout(p, r.cfg.localStaTimeout, now);
  }

  method Sweep(r: Registry, ln: NodeId, now: nat)
    requires r.Valid() && ln in r.nodes && r.tq.Timely(now) && r.currentTime <= now
    modifies r`table, r.tq
    ensures r.Valid() && r.tq.Timely(now) && ln in old(r.table).lists
    ensures Swept(r.cfg, old(r.table), r.table, old(r.table).lists[ln], now, old(r.tq.pending), r.tq.pending)
  {
    hide Registry.Valid, Registry.Core, Indexed, Swept;
    KnownNow(r);
    ghost var x := r.table;
    NodeMembers(x, ln);
    var list := r.table.lists[ln];
    SweptNone(r.cfg, x, now, r.tq.pending);
    var i := 0;
    while i < |list|
      invariant 0 <= i <= |list| && r.Valid() && r.tq.Timely(now)
      invariant Swept(r.cfg, x, r.table, list[..i], now, old(r.tq.pending), r.tq.pending)
    {
      ghost var y, pending, serial := r.table, r.tq.pending, r.tq.serial;
      SweptKeys(r.cfg, x, y, list[..i], now, old(r.tq.pending), pending);
      if r.table.info[list[i]].connected == 2 {
        SweepOne(r, list[i], now);
      }
      SweepStep(r.cfg, x, y, r.table, list, i, now, old(r.tq.pending), pending, r.tq.pending, serial);
      i := i + 1;
    }
    assert list[..i] == list;
  }

  lemma SweptNone(cfg: Config, x: Table, now: nat, pending: map<Ptr, Stamp>)
    ensures Swept(cfg, x, x, [], now, pending, pending)
  {
  }

  lemma SweptKeys(cfg: Config, x: Table, y: Table, done: seq<Ptr>, now: nat, before: map<Ptr, Stamp>, after: map<Ptr, Stamp>)
    requires Swept(cfg, x, y, done, now, before, after)
    ensures y.info.Keys == x.info.Keys
  {
  }

  // ---------------------------------------------------------------- the poll

  /** No entry goes, new ones are of this node, entries of other nodes and their timers stay. */
  ghost predicate PollKeeps(x: Table, y: Table, ln: NodeId, before: map<Ptr, Stamp>, after: map<Ptr, Stamp>) {
    && x.info.Keys <= y.info.Keys
    && (forall p :: p in y.info && p !in x.info ==> y.info[p].node == ln)
    && (forall p :: p in x.info ==> y.info[p].node == x.info[p].node && y.info[p].sta == x.info[p].sta)
    && (forall p :: p in x.info && x.info[p].node != ln ==> y.info[p] == x.info[p])
    && OtherTimers(x, before, after, ln)
  }

  /** Connected are exactly the clients reported associated, nobody is left marked, all reported have an entry. */
  ghost predicate PollConnects(y: Table, ln: NodeId, clients: seq<ClientReport>) {
    && (forall p :: p in y.info && y.info[p].node == ln ==>
          y.info[p].connected == if AssocIn(clients, y.info[p].sta) then 1 else 0)
    && (forall c :: c in clients ==> HasEntry(y, ln, c.addr))
  }

  /** Those that were connected and are not any more expire after the timeout. */
  ghost predicate PollExpires(cfg: Config, x: Table, ln: NodeId, clients: seq<ClientReport>, now: nat, after: map<Ptr,
                              Stamp>) {
    forall p :: p in x.info && x.info[p].node == ln && x.info[p].connected != 0 && !AssocIn(clients, x.info[p].sta) ==>
      p in after && after[p].due == now + cfg.localStaTimeout
  }

  /** The sweep seen by node: its marked entries are disconnected, nothing else changes. */
  ghost predicate SweptNode(cfg: Config, y: Table, z: Table, ln: NodeId, now: nat, before: map<Ptr, Stamp>,
                            after: map<Ptr, Stamp>) {
    && z.info.Keys == y.info.Keys
    && forall p :: p in y.info ==>
         SweptAt(cfg, y.info[p], z.info[p], y.info[p].node == ln, now, StampOf(before, p), StampOf(after, p))
  }

  lemma SweptByNode(cfg: Config, y: Table, z: Table, ln: NodeId, now: nat, before: map<Ptr, Stamp>, after: map<Ptr, Stamp>)
    requires Indexed(y) && ln in y.lists && Swept(cfg, y, z, y.lists[ln], now, before, after)
    ensures SweptNode(cfg, y, z, ln, now, before, after)
  {
    hide Indexed;
    NodeMembers(y, ln);
  }

  /** The entries before the poll and after the marking. */
  ghost predicate MarkedNode(x: Table, m: Table, ln: NodeId) {
    && m.info.Keys == x.info.Keys
    && forall p :: p in x.info ==> m.info[p] == if x.info[p].node == ln then Marked(x.info[p]) else x.info[p]
  }

  lemma PhasesKeep(cfg: Config, x: Table, m: Table, y: Table, z: Table, ln: NodeId, clients: seq<ClientReport>, now: nat,
                   before: map<Ptr, Stamp>, mid: map<Ptr, Stamp>, after: map<Ptr, Stamp>)
    requires MarkedNode(x, m, ln)
    requires PolledSoFar(m, y, ln, clients, |clients|) && OtherTimers(m, before, mid, ln)
    requires SweptNode(cfg, y, z, ln, now, mid, after)
    ensures PollKeeps(x, z, ln, before, after)
  {
    hide AssocIn, HasEntry;
    forall p | p in z.info
      ensures z.info[p].node == y.info[p].node && z.info[p].sta == y.info[p].sta
      ensures y.info[p].node != ln ==> z.info[p] == y.info[p] && StampOf(after, p) == StampOf(mid, p)
    {
      assert SweptAt(cfg, y.info[p], z.info[p], y.info[p].node == ln, now, StampOf(mid, p), StampOf(after, p));
    }
    OthersKept(x, m, y, z, ln, clients, before, mid, after);
  }

  lemma OthersKept(x: Table, m: Table, y: Table, z: Table, ln: NodeId, clients: seq<ClientReport>,
                   before: map<Ptr, Stamp>, mid: map<Ptr, Stamp>, after: map<Ptr, Stamp>)
    requires MarkedNode(x, m, ln) && z.info.Keys == y.info.Keys
    requires PolledSoFar(m, y, ln, clients, |clients|) && OtherTimers(m, before, mid, ln)
    requires forall p :: p in z.info ==> z.info[p].node == y.info[p].node && z.info[p].sta == y.info[p].sta
    requires forall p :: p in z.info && y.info[p].node != ln ==>
      z.info[p] == y.info[p] && StampOf(after, p) == StampOf(mid, p)
    ensures PollKeeps(x, z, ln, before, after)
  {
    hide AssocIn, HasEntry;
    forall p | p in x.info && x.info[p].node != ln
      ensures StampOf(after, p) == StampOf(before, p)
    {
    }
    TimersByStamp(x, before, after, ln);
    hide OtherTimers, StampOf;
  }

  lemma TimersByStamp(x: Table, before: map<Ptr, Stamp>, after: map<Ptr, Stamp>, ln: NodeId)
    requires forall p :: p in x.info && x.info[p].node != ln ==> StampOf(after, p) == StampOf(before, p)
    ensures OtherTimers(x, before, after, ln)
  {
    forall p | p in x.info && x.info[p].node != ln
      ensures (p in after <==> p in before) && (p in before ==> p in after && after[p] == before[p])
    {
      assert StampOf(after, p) == StampOf(before, p);
    }
  }

  /** What becomes of one entry of the node: its `connected` flag and its timer. */
  ghost predicate Outcome(cfg: Config, now: nat, clients: seq<ClientReport>, si': StaInfo, was: bool,
                          before: Option<int>, after: Option<int>) {
    if AssocIn(clients, si'.sta) then
      si'.connected == 1 && after == DueAfter(cfg, now, clients, si'.sta, before)
    else
      && si'.connected == 0
      && after == if was then Some(now + cfg.localStaTimeout) else DueAfter(cfg, now, clients, si'.sta, before)
  }

  /**
    For every entry of the node: connected if reported associated, with the timer the reports left it; else
    disconnected, and due a timeout after `now` if it was connected before.
   */
  ghost predicate PollOutcome(cfg: Config, now: nat, x: Table, z: Table, ln: NodeId, clients: seq<ClientReport>,
                              before: map<Ptr, Stamp>, after: map<Ptr, Stamp>) {
    forall p :: p in z.info && z.info[p].node == ln ==>
      Outcome(cfg, now, clients, z.info[p], p in x.info && x.info[p].connected != 0, Due(before, p), Due(after, p))
  }

  lemma PhasesOutcome(cfg: Config, x: Table, m: Table, y: Table, z: Table, ln: NodeId, clients: seq<ClientReport>, now: nat,
                      before: map<Ptr, Stamp>, mid: map<Ptr, Stamp>, after: map<Ptr, Stamp>)
    requires MarkedNode(x, m, ln)
    requires PolledSoFar(m, y, ln, clients, |clients|) && TimersSoFar(cfg, now, y, ln, clients, before, mid)
    requires SweptNode(cfg, y, z, ln, now, mid, after)
    ensures PollOutcome(cfg, now, x, z, ln, clients, before, after)
  {
    hide Outcome, PolledSoFar, TimersSoFar, SweptNode;
    forall p | p in z.info && z.info[p].node == ln
      ensures Outcome(cfg, now, clients, z.info[p], p in x.info && x.info[p].connected != 0, Due(before, p), Due(after, p))
    {
      ReportedAndSwept(cfg, m, y, z, ln, clients, now, before, mid, after, p);
      OutcomeOf(cfg, x, m, y.info[p], z.info[p], ln, clients, now, p, before, mid, after);
    }
  }

  /** One entry after the reports, and what the sweep does to it. */
  lemma ReportedAndSwept(cfg: Config, m: Table, y: Table, z: Table, ln: NodeId, clients: seq<ClientReport>, now: nat,
                         before: map<Ptr, Stamp>, mid: map<Ptr, Stamp>, after: map<Ptr, Stamp>, p: Ptr)
    requires PolledSoFar(m, y, ln, clients, |clients|) && TimersSoFar(cfg, now, y, ln, clients, before, mid)
    requires SweptNode(cfg, y, z, ln, now, mid, after) && p in z.info && z.info[p].node == ln
    ensures p in y.info && y.info[p].node == ln && (p in m.info ==> m.info[p].node == ln)
    ensures y.info[p].connected
         == if AssocIn(clients, y.info[p].sta) then 1 else if p in m.info then m.info[p].connected else 0
    ensures Due(mid, p) == DueAfter(cfg, now, clients, y.info[p].sta, Due(before, p))
    ensures SweptAt(cfg, y.info[p], z.info[p], true, now, StampOf(mid, p), StampOf(after, p))
  {
    hide AssocIn, HasEntry, DueAfter;
    assert clients[..|clients|] == clients;
    assert SweptAt(cfg, y.info[p], z.info[p], y.info[p].node == ln, now, StampOf(mid, p), StampOf(after, p));
  }

  lemma OutcomeOf(cfg: Config, x: Table, m: Table, si: StaInfo, si': StaInfo, ln: NodeId, clients: seq<ClientReport>,
                  now: nat, p: Ptr, before: map<Ptr, Stamp>, mid: map<Ptr, Stamp>, after: map<Ptr, Stamp>)
    requires MarkedNode(x, m, ln) && (p in m.info ==> m.info[p].node == ln)
    requires si.connected == if AssocIn(clients, si.sta) then 1 else if p in m.info then m.info[p].connected else 0
    requires Due(mid, p) == DueAfter(cfg, now, clients, si.sta, Due(before, p))
    requires SweptAt(cfg, si, si', true, now, StampOf(mid, p), StampOf(after, p))
    ensures Outcome(cfg, now, clients, si', p in x.info && x.info[p].connected != 0, Due(before, p), Due(after, p))
  {
    hide AssocIn, DueAfter;
  }

  lemma PhasesConnect(cfg: Config, x: Table, m: Table, y: Table, z: Table, ln: NodeId, clients: seq<ClientReport>, now: nat,
                      before: map<Ptr, Stamp>, mid: map<Ptr, Stamp>, after: map<Ptr, Stamp>)
    requires PolledSoFar(m, y, ln, clients, |clients|) && SweptNode(cfg, y, z, ln, now, mid, after)
    requires PollKeeps(x, z, ln, before, after) && PollOutcome(cfg, now, x, z, ln, clients, before, after)
    ensures PollConnects(z, ln, clients) && PollExpires(cfg, x, ln, clients, now, after)
  {
    OutcomeExpires(cfg, x, z, ln, clients, now, before, after);
    OutcomeConnects(cfg, x, z, ln, clients, now, before, after);
    hide AssocIn, HasEntry, PollExpires, PollKeeps, PollOutcome;
    EntriesStay(cfg, y, z, ln, clients, now, mid, after);
  }

  lemma OutcomeConnects(cfg: Config, x: Table, z: Table, ln: NodeId, clients: seq<ClientReport>, now: nat,
                        before: map<Ptr, Stamp>, after: map<Ptr, Stamp>)
    requires PollOutcome(cfg, now, x, z, ln, clients, before, after)
    ensures forall p :: p in z.info && z.info[p].node == ln ==>
      z.info[p].connected == if AssocIn(clients, z.info[p].sta) then 1 else 0
  {
    hide AssocIn, DueAfter;
  }

  lemma OutcomeExpires(cfg: Config, x: Table, z: Table, ln: NodeId, clients: seq<ClientReport>, now: nat,
                       before: map<Ptr, Stamp>, after: map<Ptr, Stamp>)
    requires PollKeeps(x, z, ln, before, after) && PollOutcome(cfg, now, x, z, ln, clients, before, after)
    ensures PollExpires(cfg, x, ln, clients, now, after)
  {
    hide AssocIn, DueAfter, OtherTimers, Outcome;
    forall p | p in x.info && x.info[p].node == ln && x.info[p].connected != 0 && !AssocIn(clients, x.info[p].sta)
      ensures p in after && after[p].due == now + cfg.localStaTimeout
    {
      assert p in z.info && z.info[p].node == ln && z.info[p].sta == x.info[p].sta;
      OutcomeDue(cfg, now, clients, z.info[p], Due(before, p), Due(after, p));
    }
  }

  lemma OutcomeDue(cfg: Config, now: nat, clients: seq<ClientReport>, si': StaInfo, before: Option<int>, after: Option<int>)
    requires Outcome(cfg, now, clients, si', true, before, after) && !AssocIn(clients, si'.sta)
    ensures after == Some(now + cfg.localStaTimeout)
  {
  }

  lemma EntriesStay(cfg: Config, y: Table, z: Table, ln: NodeId, clients: seq<ClientReport>, now: nat,
                    mid: map<Ptr, Stamp>, after: map<Ptr, Stamp>)
    requires SweptNode(cfg, y, z, ln, now, mid, after)
    requires forall j :: 0 <= j < |clients| ==> HasEntry(y, ln, clients[j].addr)
    ensures forall c :: c in clients ==> HasEntry(z, ln, c.addr)
  {
    forall p | p in y.info
      ensures p in z.info && z.info[p].node == y.info[p].node && z.info[p].sta == y.info[p].sta
    {
      assert SweptAt(cfg, y.info[p], z.info[p], y.info[p].node == ln, now, StampOf(mid, p), StampOf(after, p));
    }
    forall c | c in clients
      ensures HasEntry(z, ln, c.addr)
    {
      var j :| 0 <= j < |clients| && clients[j] == c;
      assert HasEntry(y, ln, clients[j].addr);
      var p :| p in y.info && y.info[p].node == ln && y.info[p].sta == c.addr;
      assert z.info[p].node == ln && z.info[p].sta == c.addr;
    }
  }

  /**
    The poll: whatever the tables were before, afterwards exactly the clients reported
    associated are connected, nobody is left marked, and `nAssoc` counts them.
   */
  method SetAssoc(r: Registry, ln: NodeId, clients: seq<ClientReport>, now: nat) returns (ghost asked: seq<Event>)
    requires r.Valid() && ln in r.nodes && ln in r.locals && r.tq.Timely(now) && r.currentTime <= now
    modifies r`table, r`trace, r`nodes, r.tq
    ensures r.Valid() && r.tq.Timely(now)
    ensures PollKeeps(old(r.table), r.table, ln, old(r.tq.pending), r.tq.pending)
    ensures PollConnects(r.table, ln, clients)
    ensures PollExpires(r.cfg, old(r.table), ln, clients, now, r.tq.pending)
    ensures PollOutcome(r.cfg, now, old(r.table), r.table, ln, clients, old(r.tq.pending), r.tq.pending)
    ensures Leaves(r.cfg, r.currentTime, old(r.table), r.table)
    ensures r.trace == old(r.trace) + asked && OnlyAsks(asked, r.table, ln)
    ensures forall n :: n in r.locals ==> n in old(r.nodes)
    ensures PollWrites(r.cfg, r.currentTime, old(r.nodes)[ln].freq, LocalFreqs(old(r.nodes), r.locals), ln, clients,
                       old(r.table), r.table)
    ensures PollAsks(r.cfg, r.currentTime, old(r.nodes)[ln].freq, LocalFreqs(old(r.nodes), r.locals), ln, clients,
                     old(r.table), r.table, asked)
    ensures r.nodes == old(r.nodes)[ln := old(r.nodes)[ln].(nAssoc := Counted(clients))]
    ensures |ConnectedOn(r.table.info, ln)| <= r.nodes[ln].nAssoc
    ensures DistinctAddrs(clients) ==> |ConnectedOn(r.table.info, ln)| == r.nodes[ln].nAssoc
  {
    hide Registry.Valid, Registry.Core, Indexed, PolledSoFar, Counted, AssocIn, OtherTimers, Swept, ConnectedOn;
    hide SweptNode, PollKeeps, PollConnects, PollExpires, PollOutcome, MarkedNode, TimersSoFar, Leaves, OnlyAsks;
    hide PolledEntries, PollWrites, PollAsks;
    ghost var x, before := r.table, r.tq.pending;
    KnownNow(r);
    MarkAll(r, ln);
    ghost var m := r.table;
    MarkedSo(x, m, ln);
    var nAssoc;
    nAssoc, asked := PollLoop(r, ln, clients, now);
    ghost var y, mid, freqs := r.table, r.tq.pending, LocalFreqs(r.nodes, r.locals);
    KnownNow(r);
    SetNAssoc(r, ln, nAssoc);
    Sweep(r, ln, now);
    SweptByNode(r.cfg, y, r.table, ln, now, mid, r.tq.pending);
    PhasesKeep(r.cfg, x, m, y, r.table, ln, clients, now, before, mid, r.tq.pending);
    PhasesOutcome(r.cfg, x, m, y, r.table, ln, clients, now, before, mid, r.tq.pending);
    PhasesConnect(r.cfg, x, m, y, r.table, ln, clients, now, before, mid, r.tq.pending);
    PhasesWrite(r.cfg, r.currentTime, now, old(r.nodes)[ln].freq, freqs, x, m, y, r.table, ln, clients, before, mid,
                r.tq.pending);
    PhasesAsk(r.cfg, r.currentTime, now, old(r.nodes)[ln].freq, freqs, x, m, y, r.table, ln, clients, asked, mid,
              r.tq.pending);
    PhasesLeave(r.cfg, r.currentTime, now, x, m, y, r.table, ln, asked, mid, r.tq.pending);
    KnownNow(r);
    OutcomeIsCounted(r.table, ln, clients);
  }

  lemma PhasesWrite(cfg: Config, clock: nat, now: nat, own: int, freqs: seq<int>, x: Table, m: Table, y: Table, z: Table,
                    ln: NodeId, clients: seq<ClientReport>, before: map<Ptr, Stamp>, mid: map<Ptr, Stamp>, after: map<Ptr,
                      Stamp>)
    requires freqs != [] && MarkedNode(x, m, ln) && PolledEntries(cfg, clock, own, freqs, ln, clients, m, y)
    requires SweptNode(cfg, y, z, ln, now, mid, after) && PollOutcome(cfg, now, x, z, ln, clients, before, after)
    ensures PollWrites(cfg, clock, own, freqs, ln, clients, x, z)
  {
    hide AssocIn, DueAfter, PolledBy;
    forall p | p in z.info && z.info[p].node == ln
      ensures z.info[p] ==
        PolledBy(cfg, clock, own, freqs, clients, z.info[p].sta, Former(x, p, ln, z.info[p].sta, own, clock)).(
          connected := if AssocIn(clients, z.info[p].sta) then 1 else 0)
    {
      assert SweptAt(cfg, y.info[p], z.info[p], y.info[p].node == ln, now, StampOf(mid, p), StampOf(after, p));
      assert Outcome(cfg, now, clients, z.info[p], p in x.info && x.info[p].connected != 0, Due(before, p), Due(after, p));
      var (si, mark) := (Former(x, p, ln, z.info[p].sta, own, clock), Former(m, p, ln, z.info[p].sta, own, clock));
      assert mark == si.(connected := mark.connected);
      MarksDoNotMatter(cfg, clock, own, freqs, clients, z.info[p].sta, si, mark.connected, z.info[p].connected);
    }
  }

  lemma PhasesAsk(cfg: Config, clock: nat, now: nat, own: int, freqs: seq<int>, x: Table, m: Table, y: Table, z: Table,
                  ln: NodeId, clients: seq<ClientReport>, asked: seq<Event>, mid: map<Ptr, Stamp>, after: map<Ptr, Stamp>)
    requires freqs != [] && MarkedNode(x, m, ln) && PollAsks(cfg, clock, own, freqs, ln, clients, m, y, asked)
    requires SweptNode(cfg, y, z, ln, now, mid, after)
    ensures PollAsks(cfg, clock, own, freqs, ln, clients, x, z, asked)
  {
    hide ChecksOf, Requests, RequestsTo;
    forall p | p in z.info && z.info[p].node == ln
      ensures var si := Former(x, p, ln, z.info[p].sta, own, clock);
        RequestsTo(p, asked) == Requests(cfg, own, freqs, si.hearing, ChecksOf(clock, clients, z.info[p].sta, si.signal))
    {
      assert SweptAt(cfg, y.info[p], z.info[p], y.info[p].node == ln, now, StampOf(mid, p), StampOf(after, p));
    }
  }

  lemma PhasesLeave(cfg: Config, currentTime: nat, now: nat, x: Table, m: Table, y: Table, z: Table, ln: NodeId,
                    asked: seq<Event>, mid: map<Ptr, Stamp>, after: map<Ptr, Stamp>)
    requires MarkedNode(x, m, ln) && Leaves(cfg, currentTime, m, y) && OnlyAsks(asked, y, ln)
    requires SweptNode(cfg, y, z, ln, now, mid, after)
    ensures Leaves(cfg, currentTime, x, z) && OnlyAsks(asked, z, ln)
  {
    hide LeavesEntry, SweptAt, Marked;
    forall p | p in z.info
      ensures LeavesEntry(cfg, currentTime, x, p, z.info[p]) && z.info[p].node == y.info[p].node
    {
      assert LeavesEntry(cfg, currentTime, m, p, y.info[p]);
      SweepLeaves(cfg, currentTime, now, x, m, y, z, ln, mid, after, p);
    }
  }

  lemma SweepLeaves(cfg: Config, currentTime: nat, now: nat, x: Table, m: Table, y: Table, z: Table, ln: NodeId,
                    mid: map<Ptr, Stamp>, after: map<Ptr, Stamp>, p: Ptr)
    requires MarkedNode(x, m, ln) && SweptNode(cfg, y, z, ln, now, mid, after) && p in z.info
    requires LeavesEntry(cfg, currentTime, m, p, y.info[p])
    ensures LeavesEntry(cfg, currentTime, x, p, z.info[p]) && z.info[p].node == y.info[p].node
  {
    assert SweptAt(cfg, y.info[p], z.info[p], y.info[p].node == ln, now, StampOf(mid, p), StampOf(after, p));
  }

  lemma MarkedSo(x: Table, m: Table, ln: NodeId)
    requires m.info.Keys == x.info.Keys
    requires forall p :: p in x.info ==> m.info[p] == if x.info[p].node == ln then Marked(x.info[p]) else x.info[p]
    ensures MarkedNode(x, m, ln)
    ensures forall p :: p in m.info && m.info[p].node == ln ==> m.info[p].connected != 1
  {
  }

  /**
    Exactly when a connected client has a timer after a poll that reports nobody twice: if the driver
    knew it, or if its timer was armed before.
   */
  lemma ConnectedButArmed(cfg: Config, now: nat, x: Table, z: Table, ln: NodeId, clients: seq<ClientReport>,
                          before: map<Ptr, Stamp>, after: map<Ptr, Stamp>, p: Ptr)
    requires DistinctAddrs(clients) && PollOutcome(cfg, now, x, z, ln, clients, before, after)
    requires p in z.info && z.info[p].node == ln && z.info[p].connected == 1
    ensures exists j :: 0 <= j < |clients| && clients[j].addr == z.info[p].sta && clients[j].assoc
    ensures forall j :: 0 <= j < |clients| && clients[j].addr == z.info[p].sta ==>
      && (p in after <==> clients[j].driver.Some? || p in before)
      && (p in after ==> after[p].due == if clients[j].driver.Some? then now + cfg.localStaTimeout else before[p].due)
  {
    hide DueAfter;
    assert Outcome(cfg, now, clients, z.info[p], p in x.info && x.info[p].connected != 0, Due(before, p), Due(after, p));
    forall j | 0 <= j < |clients| && clients[j].addr == z.info[p].sta
      ensures Due(after, p) == if clients[j].driver.Some? then Some(now + cfg.localStaTimeout) else Due(before, p)
    {
      DueOfOne(cfg, now, clients, j, Due(before, p));
    }
  }

  lemma OutcomeIsCounted(y: Table, ln: NodeId, clients: seq<ClientReport>)
    requires Indexed(y) && PollConnects(y, ln, clients)
    ensures |ConnectedOn(y.info, ln)| <= Counted(clients)
    ensures DistinctAddrs(clients) ==> |ConnectedOn(y.info, ln)| == Counted(clients)
  {
    forall c | c in clients
      ensures exists p :: p in y.info && y.info[p].node == ln && y.info[p].sta == c.addr
    {
      assert HasEntry(y, ln, c.addr);
    }
    ConnectedIsCounted(y, ln, clients);
  }

  method SetNAssoc(r: Registry, ln: NodeId, nAssoc: nat)
    requires r.Valid() && ln in r.nodes
    modifies r`nodes
    ensures r.Valid() && r.nodes == old(r.nodes)[ln := old(r.nodes)[ln].(nAssoc := nAssoc)]
  {
    r.nodes := r.nodes[ln := r.nodes[ln].(nAssoc := nAssoc)];
    assert r.nodes.Keys == old(r.nodes).Keys;
  }

  // ---------------------------------------------------------------- when polls stop

  ghost predicate IsConnected(x: Table, ln: NodeId, p: Ptr) {
    p in x.info && x.info[p].node == ln && x.info[p].connected == 1
  }

  ghost predicate ReportOf(clients: seq<ClientReport>, j: int, addr: Addr) {
    0 <= j < |clients| && clients[j].addr == addr
  }

  /**
    After a poll that reports nobody twice, nothing comes in until the timers run, a timeout later or more. Then
    exactly those connected clients are freed that the driver knew, or that had a timer which is due by then.
   */
  method SilenceFrees(r: Registry, ln: NodeId, clients: seq<ClientReport>, now: nat, clock: nat -> nat,
                      ghost x: Table, ghost before: map<Ptr, Stamp>)
    returns (time: nat)
    requires r.Valid() && DistinctAddrs(clients) && PollOutcome(r.cfg, now, x, r.table, ln, clients, before, r.tq.pending)
    requires Readings(clock, r.tq.pending, r.tq.clock) && now + r.cfg.localStaTimeout <= clock(0)
    modifies r`table, r.tq
    ensures r.Valid() && clock(0) <= time
    ensures forall p, j :: IsConnected(old(r.table), ln, p) && ReportOf(clients, j, old(r.table).info[p].sta) ==>
      (p !in r.table.info <==> clients[j].driver.Some? || (p in before && before[p].due <= time))
  {
    hide Registry.Valid, Registry.Core, PollOutcome, DistinctAddrs, Readings, Delete;
    ghost var z, pending := r.table, r.tq.pending;
    var fired;
    ghost var at;
    fired, at, time := r.TimeoutCb(clock);
    forall p, j | IsConnected(z, ln, p) && ReportOf(clients, j, z.info[p].sta)
      ensures p !in r.table.info <==> clients[j].driver.Some? || (p in before && before[p].due <= time)
    {
      ConnectedButArmed(r.cfg, now, x, z, ln, clients, before, pending, p);
      FiredIfDue(z, pending, r.tq.pending, fired, time, p);
    }
  }

  lemma FiredIfDue(z: Table, pending: map<Ptr, Stamp>, left: map<Ptr, Stamp>, fired: seq<Ptr>, time: nat, p: Ptr)
    requires p in z.info && left == pending - Elements(fired)
    requires forall i :: 0 <= i < |fired| ==> fired[i] in pending && pending[fired[i]].due <= time
    requires forall q :: q in left ==> time < left[q].due
    ensures p !in Delete(z, Elements(fired)).info <==> p in pending && pending[p].due <= time
  {
    if p in fired {
      var i :| 0 <= i < |fired| && fired[i] == p;
    }
    assert p in pending && p !in Elements(fired) ==> p in left && left[p] == pending[p];
  }
}
