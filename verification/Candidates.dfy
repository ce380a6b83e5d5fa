/**
  The search for a better access point for one client, among the reports it
  sent and among the other nodes that know it, and the decision on its requests.
 */
module Candidates {
  import opened Types
  import opened HearingMap
  import opened Steering
  import opened Stations

  /** What the searches read beside the entries. `order` lists the local nodes, then the remote ones. */
  datatype World = World(cfg: Config, now: nat, nodes: map<NodeId, Node>, order: seq<NodeId>)

  ghost predicate Known(w: World, info: map<Ptr, StaInfo>) {
    && (forall n :: n in w.order ==> n in w.nodes)
    && (forall p :: p in info ==> info[p].node in w.nodes)
  }

  /** The first node with a BSSID. */
  function NodeWithBssid(w: World, order: seq<NodeId>, bssid: Bssid): Option<NodeId>
    requires forall n :: n in order ==> n in w.nodes
  {
    if order == [] then None
    else if w.nodes[order[0]].bssid == bssid then Some(order[0])
    else NodeWithBssid(w, order[1..], bssid)
  }

  function NodeOfReport(w: World, br: Report): Option<NodeId>
    requires forall n :: n in w.order ==> n in w.nodes
  {
    NodeWithBssid(w, w.order, br.bssid)
  }

  lemma {:induction false} NodeWithBssidKnown(w: World, order: seq<NodeId>, bssid: Bssid)
    requires forall n :: n in order ==> n in w.nodes
    ensures var r := NodeWithBssid(w, order, bssid);
      if r.None? then forall n :: n in order ==> w.nodes[n].bssid != bssid
      else r.value in order && r.value in w.nodes && w.nodes[r.value].bssid == bssid
  {
    if order != [] {
      NodeWithBssidKnown(w, order[1..], bssid);
    }
  }

  /** The first in the order, or none. */
  ghost predicate IsFirstWith(w: World, order: seq<NodeId>, bssid: Bssid, r: Option<NodeId>)
    requires forall n :: n in order ==> n in w.nodes
  {
    if r.None? then forall n :: n in order ==> w.nodes[n].bssid != bssid
    else exists i :: 0 <= i < |order| && order[i] == r.value && w.nodes[order[i]].bssid == bssid
           && forall j :: 0 <= j < i ==> w.nodes[order[j]].bssid != bssid
  }

  lemma {:induction false} FirstWithBssid(w: World, order: seq<NodeId>, bssid: Bssid)
    requires forall n :: n in order ==> n in w.nodes
    ensures IsFirstWith(w, order, bssid, NodeWithBssid(w, order, bssid))
  {
    if order != [] && w.nodes[order[0]].bssid != bssid {
      FirstWithBssid(w, order[1..], bssid);
      var r := NodeWithBssid(w, order[1..], bssid);
      if r.Some? {
        var i :| 0 <= i < |order[1..]| && order[1..][i] == r.value && w.nodes[order[1..][i]].bssid == bssid
              && forall j :: 0 <= j < i ==> w.nodes[order[1..][j]].bssid != bssid;
        assert order[i + 1] == r.value && forall j :: 0 < j < i + 1 ==> order[j] == order[1..][j - 1];
      }
    }
  }

  method GetNodeFromBssid(w: World, bssid: Bssid) returns (r: Option<NodeId>)
    requires forall n :: n in w.order ==> n in w.nodes
    ensures r == NodeWithBssid(w, w.order, bssid) && IsFirstWith(w, w.order, bssid, r)
    ensures r.Some? ==> r.value in w.nodes
  {
    FirstWithBssid(w, w.order, bssid);
    hide IsFirstWith;
    var i := 0;
    while i < |w.order|
      invariant 0 <= i <= |w.order|
      invariant NodeWithBssid(w, w.order, bssid) == NodeWithBssid(w, w.order[i..], bssid)
    {
      assert w.order[i..][1..] == w.order[i + 1..];
      if w.nodes[w.order[i]].bssid == bssid {
        return Some(w.order[i]);
      }
      i := i + 1;
    }
    r := None;
  }

  /** The client's report of the node it is on. */
  function CurrentReport(w: World, node: NodeId, reports: seq<Report>): Option<Report>
    requires forall n :: n in w.order ==> n in w.nodes
  {
    if reports == [] then None
    else if NodeOfReport(w, reports[0]) == Some(node) then Some(reports[0])
    else CurrentReport(w, node, reports[1..])
  }

  /** Compared with the report `cur` of its own node, does `br` speak for another node of the network? */
  predicate ReportBetter(w: World, node: NodeId, cur: Report, br: Report)
    requires node in w.nodes && forall n :: n in w.order ==> n in w.nodes
  {
    var n := NodeOfReport(w, br);
    NodeWithBssidKnown(w, w.order, br.bssid);
    && n.Some? && n.value != node
    && w.nodes[n.value].ssid == w.nodes[node].ssid
    && Prefers(w.cfg, ReportMargin(w.cfg), Candidate(w.nodes[node], cur.rcpi), Candidate(w.nodes[n.value], br.rcpi))
  }

  function BetterReport(w: World, node: NodeId, cur: Report, reports: seq<Report>): Option<NodeId>
    requires node in w.nodes && forall n :: n in w.order ==> n in w.nodes
  {
    if reports == [] then None
    else if ReportBetter(w, node, cur, reports[0]) then NodeOfReport(w, reports[0])
    else BetterReport(w, node, cur, reports[1..])
  }

  function EntryCandidate(w: World, si: StaInfo): Candidate
    requires si.node in w.nodes
  {
    Candidate(w.nodes[si.node], si.signal)
  }

  /** Was `si` seen lately, and is it a strictly better entry of the same network than `ref`? */
  predicate EntryBetter(w: World, ref: StaInfo, si: StaInfo)
    requires ref.node in w.nodes && si.node in w.nodes
  {
    && Since(w.now, si.seen) <= w.cfg.seenPolicyTimeout
    && w.nodes[si.node].ssid == w.nodes[ref.node].ssid
    && Prefers(w.cfg, SignalMargin(w.cfg), EntryCandidate(w, ref), EntryCandidate(w, si))
  }

  function BetterEntry(w: World, info: map<Ptr, StaInfo>, ref: Ptr, list: seq<Ptr>): Option<Ptr>
    requires Known(w, info) && ref in info && forall p :: p in list ==> p in info
  {
    if list == [] then None
    else if list[0] != ref && EntryBetter(w, info[ref], info[list[0]]) then Some(list[0])
    else BetterEntry(w, info, ref, list[1..])
  }

  /** The better node the client's own reports speak for, if any. */
  function HeardBetter(w: World, si: StaInfo): Option<NodeId>
    requires si.node in w.nodes && forall n :: n in w.order ==> n in w.nodes
  {
    var cur := CurrentReport(w, si.node, si.hearing.reports);
    if cur.None? then None else BetterReport(w, si.node, cur.value, si.hearing.reports)
  }

  datatype Found = NotFound | ByReport(node: NodeId) | ByEntry(p: Ptr)

  /** The candidate the search comes up with. */
  function Search(w: World, x: Table, ref: Ptr): Found
    requires Known(w, x.info) && Indexed(x) && ref in x.info
  {
    var si := x.info[ref];
    StationList(x, ref);
    var heard := HeardBetter(w, si);
    if heard.Some? then ByReport(heard.value)
    else
      var other := BetterEntry(w, x.info, ref, x.stations[si.sta]);
      if other.Some? then ByEntry(other.value) else NotFound
  }

  lemma StationList(x: Table, ref: Ptr)
    requires Indexed(x) && ref in x.info
    ensures x.info[ref].sta in x.stations && ref in x.stations[x.info[ref].sta]
    ensures forall p :: p in x.stations[x.info[ref].sta] ==> p in x.info && x.info[p].sta == x.info[ref].sta
    ensures x.info[ref].node in x.lists && ref in x.lists[x.info[ref].node]
    ensures forall p :: p in x.lists[x.info[ref].node] ==> p in x.info && x.info[p].node == x.info[ref].node
  {
    EntryListed(x, ref);
    StationMembers(x, x.info[ref].sta);
    NodeMembers(x, x.info[ref].node);
  }

  method FindByReport(w: World, node: NodeId, reports: seq<Report>) returns (r: Option<NodeId>)
    requires node in w.nodes && forall n :: n in w.order ==> n in w.nodes
    ensures var cur := CurrentReport(w, node, reports);
      r == if cur.None? then None else BetterReport(w, node, cur.value, reports)
    ensures r.Some? ==> r.value in w.nodes && r.value != node
  {
    var brCur: Option<Report> := None;
    var i := 0;
    while i < |reports|
      invariant 0 <= i <= |reports|
      invariant brCur == None && CurrentReport(w, node, reports) == CurrentReport(w, node, reports[i..])
    {
      assert reports[i..][1..] == reports[i + 1..];
      var n := GetNodeFromBssid(w, reports[i].bssid);
      if n == Some(node) {
        brCur := Some(reports[i]);
        break;
      }
      i := i + 1;
    }
    assert brCur == CurrentReport(w, node, reports);
    if brCur == None {
      return None;
    }
    var cur := brCur.value;
    i := 0;
    while i < |reports|
      invariant 0 <= i <= |reports|
      invariant BetterReport(w, node, cur, reports) == BetterReport(w, node, cur, reports[i..])
    {
      assert reports[i..][1..] == reports[i + 1..];
      var n := GetNodeFromBssid(w, reports[i].bssid);
      if n.Some? && n.value != node && w.nodes[n.value].ssid == w.nodes[node].ssid {
        var (here, there) := (Candidate(w.nodes[node], cur.rcpi), Candidate(w.nodes[n.value], reports[i].rcpi));
        if IsBetterCandidate(w.cfg, ReportMargin(w.cfg), here, there)
           && !IsBetterCandidate(w.cfg, ReportMargin(w.cfg), there, here) {
          return n;
        }
      }
      i := i + 1;
    }
    r := None;
  }

  method FindByEntry(w: World, info: map<Ptr, StaInfo>, ref: Ptr, list: seq<Ptr>) returns (r: Option<Ptr>)
    requires Known(w, info) && ref in info && forall p :: p in list ==> p in info
    ensures r == BetterEntry(w, info, ref, list)
  {
    var i := 0;
    while i < |list|
      invariant 0 <= i <= |list|
      invariant BetterEntry(w, info, ref, list) == BetterEntry(w, info, ref, list[i..])
    {
      assert list[i..][1..] == list[i + 1..];
      var p := list[i];
      i := i + 1;
      if p == ref || Since(w.now, info[p].seen) > w.cfg.seenPolicyTimeout {
        continue;
      }
      if w.nodes[info[p].node].ssid != w.nodes[info[ref].node].ssid {
        continue;
      }
      var (here, there) := (EntryCandidate(w, info[ref]), EntryCandidate(w, info[p]));
      if IsBetterCandidate(w.cfg, SignalMargin(w.cfg), here, there)
         && !IsBetterCandidate(w.cfg, SignalMargin(w.cfg), there, here) {
        return Some(p);
      }
    }
    r := None;
  }

  // ---------------------------------------------------------------- what the search means

  /**
    The comparison of two access points in the numbers of their records: is `y`, heard at `ys`, better than `x`,
    heard at `xs`? `threshold` is what the one has to be stronger by.
   */
  ghost predicate Beats(cfg: Config, threshold: nat, x: Node, xs: int, y: Node, ys: int) {
    && (y.maxAssoc == 0 || y.nAssoc < y.maxAssoc)
    && (|| (cfg.signalDiffThreshold != 0 && xs + threshold < ys)
        || y.nAssoc + (if y.freq > 4000 then 0 else cfg.bandSteeringThreshold) + cfg.loadBalancingThreshold
           <= x.nAssoc + (if x.freq > 4000 then 0 else cfg.bandSteeringThreshold)
        || (&& cfg.loadKickMinClients <= y.nAssoc && cfg.loadKickThreshold < y.load
            && !(cfg.loadKickMinClients <= x.nAssoc && cfg.loadKickThreshold < x.load)))
  }

  /** An entry is found for another in exactly these numbers. */
  lemma EntryBetterInNumbers(w: World, a: StaInfo, b: StaInfo)
    requires a.node in w.nodes && b.node in w.nodes
    ensures var (x, y, t) := (w.nodes[a.node], w.nodes[b.node], w.cfg.signalDiffThreshold);
      EntryBetter(w, a, b)
      <==> && Since(w.now, b.seen) <= w.cfg.seenPolicyTimeout && x.ssid == y.ssid
           && Beats(w.cfg, t, x, a.signal, y, b.signal) && !Beats(w.cfg, t, y, b.signal, x, a.signal)
  {
    BelowAssocIsPotential(w.cfg, w.nodes[a.node], w.nodes[b.node]);
    BelowAssocIsPotential(w.cfg, w.nodes[b.node], w.nodes[a.node]);
  }

  /** And a report, in received channel powers; the threshold is scaled and kept in 16 bits. */
  lemma ReportBetterInNumbers(w: World, node: NodeId, cur: Report, br: Report)
    requires node in w.nodes && forall n :: n in w.order ==> n in w.nodes
    ensures var (x, n, t) := (w.nodes[node], NodeOfReport(w, br), (w.cfg.signalDiffThreshold / 100 * 255) % 0x1_0000);
      ReportBetter(w, node, cur, br)
      <==> && n.Some? && n.value in w.nodes && n.value != node && w.nodes[n.value].ssid == x.ssid
           && Beats(w.cfg, t, x, cur.rcpi, w.nodes[n.value], br.rcpi)
           && !Beats(w.cfg, t, w.nodes[n.value], br.rcpi, x, cur.rcpi)
  {
    NodeWithBssidKnown(w, w.order, br.bssid);
    var n := NodeOfReport(w, br);
    if n.Some? {
      BelowAssocIsPotential(w.cfg, w.nodes[node], w.nodes[n.value]);
      BelowAssocIsPotential(w.cfg, w.nodes[n.value], w.nodes[node]);
    }
  }

  /** Nodes that differ in nothing else: the signal alone decides, if it is compared at all. */
  lemma SignalDecides(w: World, a: StaInfo, b: StaInfo)
    requires a.node in w.nodes && b.node in w.nodes && b.seen <= w.now <= b.seen + w.cfg.seenPolicyTimeout
    requires var (x, y) := (w.nodes[a.node], w.nodes[b.node]);
      && x.ssid == y.ssid && (x.freq > 4000 <==> y.freq > 4000) && x.nAssoc == y.nAssoc
      && x.maxAssoc == y.maxAssoc == 0 && x.load <= w.cfg.loadKickThreshold && y.load <= w.cfg.loadKickThreshold
    requires 0 < w.cfg.loadBalancingThreshold
    ensures EntryBetter(w, a, b)
       <==> w.cfg.signalDiffThreshold != 0 && b.signal - a.signal > w.cfg.signalDiffThreshold
  {
    EntryBetterInNumbers(w, a, b);
  }

  /** Signals not compared, nodes not loaded: the counts decide, with a handicap for leaving 5 GHz. */
  lemma CountDecides(w: World, a: StaInfo, b: StaInfo)
    requires a.node in w.nodes && b.node in w.nodes && b.seen <= w.now <= b.seen + w.cfg.seenPolicyTimeout
    requires var (x, y) := (w.nodes[a.node], w.nodes[b.node]);
      && x.ssid == y.ssid && x.maxAssoc == y.maxAssoc == 0
      && x.load <= w.cfg.loadKickThreshold && y.load <= w.cfg.loadKickThreshold
    requires w.cfg.signalDiffThreshold == 0 && 0 < w.cfg.loadBalancingThreshold
    ensures var (x, y, bs, lb) := (w.nodes[a.node], w.nodes[b.node], w.cfg.bandSteeringThreshold,
                                   w.cfg.loadBalancingThreshold);
      EntryBetter(w, a, b) <==>
        if (x.freq > 4000) == (y.freq > 4000) then y.nAssoc + lb <= x.nAssoc
        else if x.freq > 4000 then y.nAssoc + bs + lb <= x.nAssoc
        else y.nAssoc + lb <= x.nAssoc + bs
  {
    EntryBetterInNumbers(w, a, b);
  }

  /** Of such nodes a report speaks for the better received one; below a threshold of 100 by however little. */
  lemma RcpiDecides(w: World, node: NodeId, cur: Report, br: Report, other: NodeId)
    requires node in w.nodes && (forall n :: n in w.order ==> n in w.nodes)
    requires NodeOfReport(w, br) == Some(other) && other in w.nodes && other != node && 0 < w.cfg.loadBalancingThreshold
    requires var (x, y) := (w.nodes[node], w.nodes[other]);
      && x.ssid == y.ssid && (x.freq > 4000 <==> y.freq > 4000) && x.nAssoc == y.nAssoc
      && x.maxAssoc == y.maxAssoc == 0 && x.load <= w.cfg.loadKickThreshold && y.load <= w.cfg.loadKickThreshold
    ensures var t := w.cfg.signalDiffThreshold;
      && (ReportBetter(w, node, cur, br) <==> t != 0 && br.rcpi - cur.rcpi > (t / 100 * 255) % 0x1_0000)
      && (0 < t < 100 ==> (ReportBetter(w, node, cur, br) <==> br.rcpi > cur.rcpi))
  {
    ReportBetterInNumbers(w, node, cur, br);
  }

  lemma {:induction false} CurrentReportMeaning(w: World, node: NodeId, reports: seq<Report>)
    requires forall n :: n in w.order ==> n in w.nodes
    ensures var r := CurrentReport(w, node, reports);
      if r.None? then forall br :: br in reports ==> NodeOfReport(w, br) != Some(node)
      else exists i :: 0 <= i < |reports| && reports[i] == r.value && NodeOfReport(w, r.value) == Some(node)
             && forall j :: 0 <= j < i ==> NodeOfReport(w, reports[j]) != Some(node)
  {
    if reports != [] && NodeOfReport(w, reports[0]) != Some(node) {
      CurrentReportMeaning(w, node, reports[1..]);
      var r := CurrentReport(w, node, reports[1..]);
      if r.Some? {
        var i :| 0 <= i < |reports| - 1 && reports[1..][i] == r.value
                 && forall j :: 0 <= j < i ==> NodeOfReport(w, reports[1..][j]) != Some(node);
        assert reports[i + 1] == r.value;
        assert forall j :: 0 < j < i + 1 ==> reports[j] == reports[1..][j - 1];
      }
    }
  }

  /** The one found is the first of its list that is better. */
  lemma {:induction false} FirstBetterEntry(w: World, info: map<Ptr, StaInfo>, ref: Ptr, list: seq<Ptr>) returns (i: nat)
    requires Known(w, info) && ref in info && forall p :: p in list ==> p in info
    requires BetterEntry(w, info, ref, list).Some?
    ensures i < |list| && BetterEntry(w, info, ref, list) == Some(list[i])
    ensures list[i] != ref && EntryBetter(w, info[ref], info[list[i]])
    ensures forall j :: 0 <= j < i ==> list[j] == ref || !EntryBetter(w, info[ref], info[list[j]])
  {
    if list[0] != ref && EntryBetter(w, info[ref], info[list[0]]) {
      i := 0;
    } else {
      i := FirstBetterEntry(w, info, ref, list[1..]);
      assert forall j :: 0 < j < i + 1 ==> list[j] == list[1..][j - 1];
      i := i + 1;
    }
  }

  lemma {:induction false} FirstBetterReport(w: World, node: NodeId, cur: Report, reports: seq<Report>) returns (i: nat)
    requires node in w.nodes && forall n :: n in w.order ==> n in w.nodes
    requires BetterReport(w, node, cur, reports).Some?
    ensures i < |reports| && BetterReport(w, node, cur, reports) == NodeOfReport(w, reports[i])
    ensures ReportBetter(w, node, cur, reports[i])
    ensures forall j :: 0 <= j < i ==> !ReportBetter(w, node, cur, reports[j])
  {
    if ReportBetter(w, node, cur, reports[0]) {
      i := 0;
    } else {
      i := FirstBetterReport(w, node, cur, reports[1..]);
      assert forall j :: 0 < j < i + 1 ==> reports[j] == reports[1..][j - 1];
      i := i + 1;
    }
  }

  /** Does some report of the client speak for a better node, compared with its report of the node it is on? */
  ghost predicate SpokenFor(w: World, si: StaInfo)
    requires si.node in w.nodes && forall n :: n in w.order ==> n in w.nodes
  {
    var cur := CurrentReport(w, si.node, si.hearing.reports);
    cur.Some? && exists br :: br in si.hearing.reports && ReportBetter(w, si.node, cur.value, br)
  }

  /** What a search comes up with: the reports decide if they speak for a node, and the station's entries if not. */
  lemma SearchMeaning(w: World, x: Table, p: Ptr)
    requires Known(w, x.info) && Indexed(x) && p in x.info
    ensures var (si, a) := (x.info[p], x.info[p].sta);
      && a in x.stations && (forall q :: q in x.stations[a] ==> q in x.info)
      && match Search(w, x, p)
         case NotFound => !SpokenFor(w, si) && forall q :: q in x.stations[a] && q != p ==> !EntryBetter(w, si, x.info[q])
         case ByReport(n) => SpokenFor(w, si) && n in w.nodes && n != si.node && w.nodes[n].ssid == w.nodes[si.node].ssid
         case ByEntry(q) => !SpokenFor(w, si) && q in x.stations[a] && q != p && EntryBetter(w, si, x.info[q])
  {
    StationList(x, p);
    var si := x.info[p];
    var cur := CurrentReport(w, si.node, si.hearing.reports);
    if cur.Some? {
      BetterReportMeaning(w, si.node, cur.value, si.hearing.reports);
      var heard := BetterReport(w, si.node, cur.value, si.hearing.reports);
      if heard.Some? {
        var br :| br in si.hearing.reports && ReportBetter(w, si.node, cur.value, br) && NodeOfReport(w, br) == heard;
        NodeWithBssidKnown(w, w.order, br.bssid);
      }
    }
    BetterEntryMeaning(w, x.info, p, x.stations[si.sta]);
  }

  lemma {:induction false} BetterEntryMeaning(w: World, info: map<Ptr, StaInfo>, ref: Ptr, list: seq<Ptr>)
    requires Known(w, info) && ref in info && forall p :: p in list ==> p in info
    ensures var r := BetterEntry(w, info, ref, list);
      if r.None? then forall p :: p in list && p != ref ==> !EntryBetter(w, info[ref], info[p])
      else r.value in list && r.value != ref && EntryBetter(w, info[ref], info[r.value])
  {
    if list != [] {
      BetterEntryMeaning(w, info, ref, list[1..]);
    }
  }

  lemma {:induction false} BetterReportMeaning(w: World, node: NodeId, cur: Report, reports: seq<Report>)
    requires node in w.nodes && forall n :: n in w.order ==> n in w.nodes
    ensures var r := BetterReport(w, node, cur, reports);
      if r.None? then forall br :: br in reports ==> !ReportBetter(w, node, cur, br)
      else exists br :: br in reports && ReportBetter(w, node, cur, br) && NodeOfReport(w, br) == r
  {
    if reports != [] {
      if ReportBetter(w, node, cur, reports[0]) {
        assert reports[0] in reports;
      } else {
        BetterReportMeaning(w, node, cur, reports[1..]);
        if br :| br in reports[1..] && ReportBetter(w, node, cur, br)
                 && NodeOfReport(w, br) == BetterReport(w, node, cur, reports[1..]) {
          assert br in reports;
        }
      }
    }
  }

  // ---------------------------------------------------------------- requests

  /** Strong enough and known for long enough to be answered at all. */
  predicate Answerable(w: World, si: StaInfo)
    requires si.node in w.nodes
  {
    && si.signal >= SnrToSignal(w.nodes[si.node], w.cfg.minConnectSnr)
    && Since(w.now, si.created) >= w.cfg.initialConnectDelay
  }

  /** The answer to a request of the given kind. */
  predicate Accepts(w: World, x: Table, p: Ptr, kind: EventType)
    requires Known(w, x.info) && Indexed(x) && p in x.info
  {
    || kind == Assoc
    || x.info[p].StatsOf(kind).blockedCur >= w.cfg.maxRetryBand
    || (Answerable(w, x.info[p]) && Search(w, x, p) == NotFound)
  }

  /** The decision in numbers. */
  lemma AcceptsInNumbers(w: World, x: Table, p: Ptr, kind: EventType)
    requires Known(w, x.info) && Indexed(x) && p in x.info
    ensures var (si, node, snr) := (x.info[p], w.nodes[x.info[p].node], w.cfg.minConnectSnr);
      Accepts(w, x, p, kind)
      <==> || kind == Assoc
           || w.cfg.maxRetryBand <= si.StatsOf(kind).blockedCur
           || (&& (if snr < 0 then snr else snr + if node.noise == 0 then -95 else node.noise) <= si.signal
               && w.cfg.initialConnectDelay <= Since(w.now, si.created)
               && Search(w, x, p) == NotFound)
  {
  }

  /** As long as no report speaks for a better node, some node has no better candidate for the station. */
  lemma SomeEntryUnbeaten(w: World, x: Table, a: Addr) returns (p: Ptr)
    requires Known(w, x.info) && Indexed(x) && Inhabited(x) && a in x.stations
    requires forall q :: q in x.stations[a] ==> q in x.info && HeardBetter(w, x.info[q]) == None
    ensures p in x.stations[a] && p in x.info && Search(w, x, p) == NotFound
  {
    var list := x.stations[a];
    var cs := seq(|list|, i requires 0 <= i < |list| => EntryCandidate(w, x.info[list[i]]));
    var best := UnbeatenExists(w.cfg, SignalMargin(w.cfg), cs);
    p := list[best];
    StationMembers(x, a);
    StationList(x, p);
    BetterEntryMeaning(w, x.info, p, list);
    forall q | q in list
      ensures !EntryBetter(w, x.info[p], x.info[q])
    {
      var i :| 0 <= i < |list| && list[i] == q;
      assert !Prefers(w.cfg, SignalMargin(w.cfg), cs[best], cs[i]);
    }
  }

  /** So the nodes never refuse a station all at once. */
  lemma NeverRefusedByAll(w: World, x: Table, a: Addr, kind: EventType) returns (p: Ptr)
    requires Known(w, x.info) && Indexed(x) && Inhabited(x) && a in x.stations
    requires forall q :: q in x.stations[a] ==>
      q in x.info && HeardBetter(w, x.info[q]) == None && Answerable(w, x.info[q])
    ensures p in x.stations[a] && p in x.info && Accepts(w, x, p, kind)
  {
    p := SomeEntryUnbeaten(w, x, a);
  }
}
