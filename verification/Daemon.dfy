/**
  Everything that can happen to the daemon, one operation at a time: what all
  of it keeps, and what each of it does.
 */
module Daemon {
  import opened Types
  import opened Lists
  import opened Timeout
  import opened HearingMap
  import opened Stations
  import opened Candidates
  import opened Blocking
  import opened Registry
  import opened Policy
  import opened Events
  import opened Poll
  import opened Remote
  import opened History
  import opened Effects
  import opened Chronicle

  /** Between polls a local entry is connected or not, and `nAssoc` is never less than the connected ones. */
  ghost predicate Settled(info: map<Ptr, StaInfo>, nodes: map<NodeId, Node>, locals: seq<NodeId>) {
    && (forall p :: p in info && info[p].node in locals ==> info[p].connected <= 1)
    && (forall n :: n in locals ==> n in nodes && |ConnectedOn(info, n)| <= nodes[n].nAssoc)
  }

  /** Fewer connected entries of the same nodes. */
  ghost predicate Fewer(info: map<Ptr, StaInfo>, info': map<Ptr, StaInfo>, locals: seq<NodeId>) {
    forall p :: p in info' && info'[p].node in locals && info'[p].connected != 0 ==>
      p in info && info[p].connected == info'[p].connected && info[p].node == info'[p].node
  }

  lemma FewerIsSettled(info: map<Ptr, StaInfo>, info': map<Ptr, StaInfo>, nodes: map<NodeId, Node>,
                       nodes': map<NodeId, Node>, locals: seq<NodeId>, locals': seq<NodeId>)
    requires Settled(info, nodes, locals) && Fewer(info, info', locals')
    requires forall n :: n in locals' ==> n in locals && (n in nodes ==> n in nodes' && nodes[n].nAssoc <= nodes'[n].nAssoc)
    ensures Settled(info', nodes', locals')
  {
    forall n | n in locals'
      ensures n in nodes' && |ConnectedOn(info', n)| <= nodes'[n].nAssoc
    {
      SubsetSize(ConnectedOn(info', n), ConnectedOn(info, n));
    }
  }

  lemma NoneConnectsIsSettled(x: Table, y: Table, nodes: map<NodeId, Node>, locals: seq<NodeId>)
    requires Settled(x.info, nodes, locals) && NoneConnects(x, y)
    ensures Settled(y.info, nodes, locals)
  {
    FewerIsSettled(x.info, y.info, nodes, nodes, locals, locals);
  }

  lemma LeavingIsSettled(x: Table, y: Table, nodes: map<NodeId, Node>, locals: seq<NodeId>)
    requires Settled(x.info, nodes, locals) && OnlyLeaving(x, y)
    ensures Settled(y.info, nodes, locals)
  {
    FewerIsSettled(x.info, y.info, nodes, nodes, locals, locals);
  }

  /** Entries of whatever nodes go, and perhaps nodes too. */
  lemma LeftIsSettled(x: Table, y: Table, nodes: map<NodeId, Node>, nodes': map<NodeId, Node>, locals: seq<NodeId>,
                      locals': seq<NodeId>)
    requires Settled(x.info, nodes, locals) && SomeLeft(x, y)
    requires forall n :: n in locals' ==> n in locals && (n in nodes ==> n in nodes' && nodes'[n] == nodes[n])
    ensures Settled(y.info, nodes', locals')
  {
    FewerIsSettled(x.info, y.info, nodes, nodes', locals, locals');
  }

  lemma SameIsSettled(x: Table, nodes: map<NodeId, Node>, nodes': map<NodeId, Node>, locals: seq<NodeId>)
    requires Settled(x.info, nodes, locals)
    requires forall n :: n in locals && n in nodes ==> n in nodes' && nodes[n].nAssoc <= nodes'[n].nAssoc
    ensures Settled(x.info, nodes', locals)
  {
    FewerIsSettled(x.info, x.info, nodes, nodes', locals, locals);
  }

  lemma PollIsSettled(x: Table, y: Table, nodes: map<NodeId, Node>, nodes': map<NodeId, Node>, locals: seq<NodeId>,
                      ln: NodeId, clients: seq<ClientReport>, before: map<Ptr, Stamp>, after: map<Ptr, Stamp>)
    requires Settled(x.info, nodes, locals) && ln in locals && ln in nodes'
    requires PollKeeps(x, y, ln, before, after) && PollConnects(y, ln, clients)
    requires |ConnectedOn(y.info, ln)| <= nodes'[ln].nAssoc
    requires forall n :: n in locals && n != ln ==> n in nodes' && nodes'[n] == nodes[n]
    ensures Settled(y.info, nodes', locals)
  {
    hide AssocIn, HasEntry, OtherTimers;
    forall n | n in locals && n != ln
      ensures |ConnectedOn(y.info, n)| <= nodes'[n].nAssoc
    {
      assert ConnectedOn(y.info, n) == ConnectedOn(x.info, n);
    }
  }

  lemma NewNodeIsSettled(x: Table, timers: set<Ptr>, n: NodeId, node: Node, nodes: map<NodeId, Node>,
                         locals: seq<NodeId>, locals': seq<NodeId>)
    requires Settled(x.info, nodes, locals) && Sound(x, timers) && n !in x.lists
    requires forall m :: m in locals' ==> m in locals || m == n
    ensures Settled(x.info, nodes[n := node], locals')
  {
    NoEntriesOf(x, timers, n);
    assert ConnectedOn(x.info, n) == {};
  }

  // ---------------------------------------------------------------- operations

  /** The whole invariant, and that every entry has a life that explains it and its statistics. */
  ghost predicate Good(r: Registry, h: map<Ptr, Life>)
    reads r, r.tq
  {
    && r.Valid() && Settled(r.table.info, r.nodes, r.locals)
    && Chronicled(r.cfg, r.table, r.trace, r.currentTime, h)
  }

  lemma Placed(r: Registry)
    requires r.Valid()
    ensures Sane(r.cfg) && r.nodes.Keys == r.table.lists.Keys && Sound(r.table, r.tq.pending.Keys)
    ensures forall n :: n in r.locals ==> n in r.nodes && n in r.loadThrCount && n !in r.check && n !in r.remotes
    ensures forall n :: n in r.loadThrCount ==> n in r.locals
    ensures forall n :: n in r.check ==> n in r.remotes && n in r.nodes && n !in r.locals
  {
    RemotesChecked(r);
    SplitNoDup(r.locals, r.remotes);
    assert forall n :: n in r.locals ==> n in Elements(r.locals);
    assert forall n :: n in r.remotes ==> n in Elements(r.remotes);
  }

  lemma LocalNode(r: Registry, n: NodeId)
    requires r.Valid()
    ensures Sane(r.cfg)
    ensures n in r.locals ==> n in r.nodes && n in r.loadThrCount
  {
    Placed(r);
  }

  /** A new registry is good. */
  method Start(cfg: Config) returns (r: Registry, ghost h: map<Ptr, Life>)
    requires Sane(cfg)
    ensures fresh(r) && fresh(r.tq) && Good(r, h) && h == map[] && r.cfg == cfg
  {
    r := new Registry(cfg);
    h := map[];
  }

  method DoFrame(r: Registry, o: Op, now: nat, ghost h: map<Ptr, Life>) returns (answer: bool, ghost h': map<Ptr, Life>)
    requires o.Frame? && Good(r, h) && r.tq.Timely(now) && r.currentTime <= now
    modifies r`table, r`currentTime, r.tq
    ensures Good(r, h') && r.currentTime <= now
    ensures Happened(r.cfg, o, now, old(Snap(r)), Snap(r), answer, h, h')
  {
    hide Registry.Valid, Registry.Core, Settled, SomeLeft, NoneConnects, Chronicled, Known, Indexed, FrameTaken, MadeAtMost;
    hide Former, Noted, Accepts, Refuses, Decided, Happened;
    LocalNode(r, o.node);
    ghost var s := Snap(r);
    answer, h' := false, h;
    if o.node !in r.locals {
      NothingHappened(r.cfg, o, now, s, h);
      return;
    }
    var p;
    ghost var mid;
    answer, p, mid := HandleEvent(r, o.node, o.addr, o.kind, o.signal, now);
    NoneConnectsIsSettled(s.table, r.table, r.nodes, r.locals);
    assert WorldOf(r.cfg, Snap(r)) == r.Now();
    h' := FrameHappened(r.cfg, o, now, s, Snap(r), answer, p, mid, h);
  }

  method DoBeacon(r: Registry, o: Op, now: nat, ghost h: map<Ptr, Life>) returns (ghost h': map<Ptr, Life>)
    requires o.Beacon? && Good(r, h) && r.currentTime <= now
    modifies r`table, r`currentTime
    ensures Good(r, h') && r.currentTime <= now
    ensures Happened(r.cfg, o, now, old(Snap(r)), Snap(r), false, h, h')
  {
    hide Registry.Valid, Registry.Core, Settled, SomeLeft, NoneConnects, Chronicled, Indexed, Keep, Happened;
    LocalNode(r, o.node);
    h' := h;
    ghost var s := Snap(r);
    if o.node !in r.locals {
      NothingHappened(r.cfg, o, now, s, h);
      return;
    }
    KnownNow(r);
    r.UpdateTime(now);
    var taken := HandleBeaconReport(r, o.node, o.addr, o.bssid, o.rcpi, o.rsni, o.opClass, o.channel);
    NoneConnectsIsSettled(s.table, r.table, r.nodes, r.locals);
    assert taken.Some? ==> IsEntry(s.table, taken.value, o.node, o.addr);
    h' := BeaconHappened(r.cfg, o, now, s, Snap(r), h);
  }

  /** The answer to a poll, which also tells the node's frequency. */
  method DoClients(r: Registry, o: Op, now: nat, ghost h: map<Ptr, Life>) returns (ghost h': map<Ptr, Life>)
    requires o.Clients? && Good(r, h) && r.tq.Timely(now) && r.currentTime <= now
    modifies r`table, r`trace, r`nodes, r.tq
    ensures Good(r, h') && r.currentTime <= now
    ensures o.node in r.locals ==>
      PollConnects(r.table, o.node, o.clients) && o.node in r.nodes && r.nodes[o.node].nAssoc == Counted(o.clients)
    ensures Happened(r.cfg, o, now, old(Snap(r)), Snap(r), false, h, h')
  {
    hide Registry.Valid, Registry.Core, Settled, PollKeeps, PollConnects, PollExpires, PollOutcome, PollWrites, PollAsks,
      ConnectedOn;
    hide Counted, DistinctAddrs, Chronicled, Leaves, OnlyAsks, Happened;
    LocalNode(r, o.node);
    h' := h;
    ghost var s := Snap(r);
    if o.node !in r.locals {
      NothingHappened(r.cfg, o, now, s, h);
      return;
    }
    SetFreq(r, o.node, o.freq);
    ghost var asked;
    asked := SetAssoc(r, o.node, o.clients, now);
    PollIsSettled(s.table, r.table, s.nodes, r.nodes, r.locals, o.node, o.clients, s.timers, r.tq.pending);
    assert r.trace[|s.trace|..] == asked;
    h' := PollHappened(r.cfg, o, now, s, Snap(r), h);
  }

  method SetFreq(r: Registry, ln: NodeId, freq: int)
    requires r.Valid() && ln in r.nodes
    modifies r`nodes
    ensures r.Valid() && r.nodes == old(r.nodes)[ln := old(r.nodes)[ln].(freq := freq)]
  {
    r.nodes := r.nodes[ln := r.nodes[ln].(freq := freq)];
    assert r.nodes.Keys == old(r.nodes).Keys;
  }

  method DoKickTick(r: Registry, o: Op, now: nat, ghost h: map<Ptr, Life>) returns (ghost h': map<Ptr, Life>)
    requires o.KickTick? && Good(r, h) && r.currentTime <= now
    modifies r`table, r`trace, r`currentTime, r`loadThrCount
    ensures Good(r, h') && r.currentTime <= now
    ensures Happened(r.cfg, o, now, old(Snap(r)), Snap(r), false, h, h')
  {
    hide Registry.Valid, Registry.Core, Settled, SomeLeft, OnlyLeaving, KicksOf, KickedIn, Chronicled, Ticked, Happened;
    LocalNode(r, o.node);
    h' := h;
    ghost var s := Snap(r);
    if o.node !in r.locals {
      NothingHappened(r.cfg, o, now, s, h);
      return;
    }
    var kicks;
    ghost var tick;
    kicks, tick := LocalNodeKick(r, o.node, now);
    LeavingIsSettled(s.table, r.table, r.nodes, r.locals);
    assert WorldOf(r.cfg, Snap(r)) == r.Now();
    h' := TickHappened(r.cfg, o, now, s, Snap(r), tick, h);
  }

  /** A message from another access point: one of its nodes, new or known, and the stations of that node. */
  method DoNodeMessage(r: Registry, o: Op, now: nat, ghost h: map<Ptr, Life>) returns (ghost h': map<Ptr, Life>)
    requires o.NodeMessage? && Good(r, h) && r.tq.Timely(now) && r.currentTime <= now
    requires forall i :: 0 <= i < |o.stations| ==> o.stations[i].timeout < HALF
    modifies r`table, r`nodes, r`locals, r`remotes, r`loadThrCount, r`check, r.tq
    ensures Good(r, h') && r.currentTime <= now
    ensures Happened(r.cfg, o, now, old(Snap(r)), Snap(r), false, h, h')
  {
    hide Registry.Valid, Registry.Core, Settled, Chronicled, MessageDone, Happened;
    LocalNode(r, o.node);
    h' := h;
    ghost var s := Snap(r);
    if o.node in r.locals || (o.node !in r.nodes && |r.remotes| < o.at) {
      NothingHappened(r.cfg, o, now, s, h);
      return;
    }
    TakeMessage(r, o, now);
    h' := MessageHappened(r.cfg, o, now, s, Snap(r), h);
  }

  method TakeMessage(r: Registry, o: Op, now: nat)
    requires r.Valid() && Settled(r.table.info, r.nodes, r.locals) && r.tq.Timely(now) && o.NodeMessage? && !Ignored(o,
                                                                                                                     Snap(r))
    requires forall i :: 0 <= i < |o.stations| ==> o.stations[i].timeout < HALF
    modifies r`table, r`nodes, r`locals, r`remotes, r`loadThrCount, r`check, r.tq
    ensures r.Valid() && Settled(r.table.info, r.nodes, r.locals)
    ensures MessageDone(o, now, old(Snap(r)), Snap(r))
  {
    hide Registry.Valid, Registry.Core, Settled, StationsTaken, InsertAt;
    ghost var s := Snap(r);
    TakeAttributes(r, o.node, o.attributes, o.at);
    ghost var x := r.table;
    AddStations(r, o.node, o.stations, now);
    StationsSettled(r.currentTime, now, o.node, o.attributes.freq, o.stations, x, r.table, s.timers, r.tq.pending, r.nodes,
                    r.locals);
    EntriesCount(r.currentTime, now, o.node, o.attributes.freq, o.stations, s.table, x, r.table, s.timers, r.tq.pending);
  }

  /** The node's part of the message. */
  method TakeAttributes(r: Registry, node: NodeId, attributes: Node, at: nat)
    requires r.Valid() && Settled(r.table.info, r.nodes, r.locals) && node !in r.locals
    requires node in r.nodes || at <= |r.remotes|
    modifies r`table, r`nodes, r`locals, r`remotes, r`loadThrCount, r`check
    ensures r.Valid() && Settled(r.table.info, r.nodes, r.locals)
    ensures r.locals == old(r.locals) && r.loadThrCount == old(r.loadThrCount)
    ensures r.table == old(r.table).(lists := r.table.lists) && r.table.lists.Keys == old(r.table).lists.Keys + {node}
    ensures r.nodes == old(r.nodes)[node := attributes] && r.check == old(r.check)[node := 0]
    ensures r.remotes == if node in old(r.nodes) then old(r.remotes) else InsertAt(old(r.remotes), at, node)
  {
    hide Registry.Valid, Registry.Core, Settled, SomeLeft, InsertAt;
    Placed(r);
    if node !in r.nodes {
      NewNodeIsSettled(r.table, r.tq.pending.Keys, node, attributes, r.nodes, r.locals, r.locals);
      AddNode(r, node, attributes, false, at);
    } else {
      KnownNode(r, node);
      ghost var nodes := r.nodes;
      UpdateNode(r, node, attributes);
      SameIsSettled(r.table, nodes, r.nodes, r.locals);
    }
  }

  lemma KnownNode(r: Registry, n: NodeId)
    requires r.Valid() && n in r.nodes && n !in r.locals
    ensures n in r.check
  {
    assert n in Elements(r.locals + r.remotes);
    RemotesChecked(r);
    SplitNoDup(r.locals, r.remotes);
  }

  /** A message about stations of a remote node does not touch the local entries. */
  lemma StationsSettled(clock: nat, now: nat, node: NodeId, freq: int, msgs: seq<StaMsg>, x: Table, y: Table,
                        before: map<Ptr, Stamp>, after: map<Ptr, Stamp>, nodes: map<NodeId, Node>, locals: seq<NodeId>)
    requires StationsTaken(clock, now, node, freq, msgs, x, y, before, after) && node !in locals
    requires Settled(x.info, nodes, locals)
    ensures Settled(y.info, nodes, locals)
  {
    forall p | p in y.info && y.info[p].node in locals
      ensures p in x.info && y.info[p] == x.info[p]
    {
      assert EntryTaken(clock, now, node, freq, msgs, x, y, before, after, p);
    }
    FewerIsSettled(x.info, y.info, nodes, nodes, locals, locals);
  }

  /** Only the entries of the table before count. */
  lemma EntriesCount(clock: nat, now: nat, node: NodeId, freq: int, msgs: seq<StaMsg>, x: Table, x': Table, y: Table,
                     before: map<Ptr, Stamp>, after: map<Ptr, Stamp>)
    requires StationsTaken(clock, now, node, freq, msgs, x', y, before, after) && x'.info == x.info
    ensures StationsTaken(clock, now, node, freq, msgs, x, y, before, after)
  {
    hide Taken, LastWord, HasEntry;
    forall p | p in y.info
      ensures EntryTaken(clock, now, node, freq, msgs, x, y, before, after, p)
    {
      assert EntryTaken(clock, now, node, freq, msgs, x', y, before, after, p);
    }
  }

  /** The timer of the remote updates: messages are sent, silent nodes age. */
  method DoUpdateTick(r: Registry, o: Op, now: nat, ghost h: map<Ptr, Life>) returns (ghost h': map<Ptr, Life>)
    requires o.UpdateTick? && Good(r, h) && r.currentTime <= now
    modifies r`table, r`nodes, r`locals, r`remotes, r`loadThrCount, r`check, r`currentTime, r.tq`tree, r.tq`pending
    ensures Good(r, h') && r.currentTime <= now
    ensures Happened(r.cfg, o, now, old(Snap(r)), Snap(r), false, h, h')
  {
    hide Registry.Valid, Registry.Core, Settled, SomeLeft, Aged, Chronicled, KeptWithNodes, TimersLeft, Minus, Happened;
    Placed(r);
    ghost var s := Snap(r);
    r.UpdateTime(now);
    CheckTimeout(r);
    KeptLeaves(s.table, r.table, r.nodes.Keys);
    LeftIsSettled(s.table, r.table, s.nodes, r.nodes, r.locals, r.locals);
    h' := OthersHappened(r.cfg, o, now, s, Snap(r), h);
  }

  /** What the driver, netifd and hostapd tell about a local node: names, noise and load, how many clients it takes. */
  method DoLocalInfo(r: Registry, o: Op, now: nat, ghost h: map<Ptr, Life>) returns (ghost h': map<Ptr, Life>)
    requires o.LocalInfo? && Good(r, h) && r.currentTime <= now
    modifies r`nodes
    ensures Good(r, h') && r.currentTime <= now
    ensures Happened(r.cfg, o, now, old(Snap(r)), Snap(r), false, h, h')
  {
    hide Registry.Valid, Registry.Core, Settled, SomeLeft, Chronicled, Happened;
    LocalNode(r, o.node);
    h' := h;
    ghost var s := Snap(r);
    if o.node !in r.locals {
      NothingHappened(r.cfg, o, now, s, h);
      return;
    }
    SetAttributes(r, o.node, o.attributes.(nAssoc := r.nodes[o.node].nAssoc));
    SameIsSettled(r.table, s.nodes, r.nodes, r.locals);
    h' := OthersHappened(r.cfg, o, now, s, Snap(r), h);
  }

  method SetAttributes(r: Registry, ln: NodeId, node: Node)
    requires r.Valid() && ln in r.nodes
    modifies r`nodes
    ensures r.Valid() && r.nodes == old(r.nodes)[ln := node]
  {
    r.nodes := r.nodes[ln := node];
    assert r.nodes.Keys == old(r.nodes).Keys;
  }

  method DoLocalUp(r: Registry, o: Op, now: nat, ghost h: map<Ptr, Life>) returns (ghost h': map<Ptr, Life>)
    requires o.LocalUp? && Good(r, h) && r.currentTime <= now
    modifies r`table, r`nodes, r`locals, r`remotes, r`loadThrCount, r`check
    ensures Good(r, h') && r.currentTime <= now
    ensures Happened(r.cfg, o, now, old(Snap(r)), Snap(r), false, h, h')
  {
    hide Registry.Valid, Registry.Core, Settled, Chronicled, Happened;
    Placed(r);
    h' := h;
    ghost var s := Snap(r);
    if o.node in r.nodes || o.at > |r.locals| {
      NothingHappened(r.cfg, o, now, s, h);
      return;
    }
    NewNodeIsSettled(r.table, r.tq.pending.Keys, o.node, o.attributes, r.nodes, r.locals, InsertAt(r.locals, o.at, o.node));
    AddNode(r, o.node, o.attributes, true, o.at);
    h' := OthersHappened(r.cfg, o, now, s, Snap(r), h);
  }

  method DoLocalDown(r: Registry, o: Op, now: nat, ghost h: map<Ptr, Life>) returns (ghost h': map<Ptr, Life>)
    requires o.LocalDown? && Good(r, h) && r.currentTime <= now
    modifies r`table, r`nodes, r`locals, r`remotes, r`loadThrCount, r`check, r.tq`tree, r.tq`pending
    ensures Good(r, h') && r.currentTime <= now
    ensures Happened(r.cfg, o, now, old(Snap(r)), Snap(r), false, h, h')
  {
    hide Registry.Valid, Registry.Core, Settled, SomeLeft, Delete, Chronicled, Elements, Minus, Happened;
    LocalNode(r, o.node);
    h' := h;
    ghost var s := Snap(r);
    if o.node !in r.locals {
      NothingHappened(r.cfg, o, now, s, h);
      return;
    }
    MinusMembers(r.locals, {o.node});
    DropNode(r, o.node);
    DeletingLeaves(s.table, r.table, Elements(s.table.lists[o.node]));
    LeftIsSettled(s.table, r.table, s.nodes, r.nodes, s.locals, r.locals);
    h' := OthersHappened(r.cfg, o, now, s, Snap(r), h);
  }

  method DoTimers(r: Registry, o: Op, clock: nat -> nat, ghost h: map<Ptr, Life>) returns (ghost h': map<Ptr, Life>)
    requires o.Timers? && Good(r, h)
    requires Readings(clock, r.tq.pending, r.tq.clock)
    modifies r`table, r.tq
    ensures Good(r, h') && r.currentTime == old(r.currentTime)
    ensures Happened(r.cfg, o, clock(0), old(Snap(r)), Snap(r), false, h, h')
  {
    hide Registry.Valid, Registry.Core, Settled, SomeLeft, Delete, Chronicled, Readings, Elements, Unseen, Before, Happened;
    Placed(r);
    ghost var s := Snap(r);
    ghost var at;
    var fired, time;
    fired, at, time := r.TimeoutCb(clock);
    assert TimersDone(r.cfg, clock(0), s, Snap(r), fired, at, time);
    DeletingLeaves(s.table, r.table, Elements(fired));
    LeftIsSettled(s.table, r.table, r.nodes, r.nodes, r.locals, r.locals);
    h' := OthersHappened(r.cfg, o, clock(0), s, Snap(r), h);
  }

  /**
    Any operation at any time keeps the invariant, so it holds in every state the daemon gets into; it has its
    effect, and the lives of the entries go on by exactly what it puts into them.
    `clock` gives the readings the timer callback takes, from `now` on; `answer` is what is said to a frame.
   */
  method Do(r: Registry, o: Op, now: nat, clock: nat -> nat, ghost h: map<Ptr, Life>)
    returns (answer: bool, ghost h': map<Ptr, Life>)
    requires Good(r, h) && r.tq.Timely(now) && r.currentTime <= now
    requires o.NodeMessage? ==> forall i :: 0 <= i < |o.stations| ==> o.stations[i].timeout < HALF
    requires o.Timers? ==> Readings(clock, r.tq.pending, r.tq.clock) && clock(0) == now
    modifies r, r.tq
    ensures Good(r, h') && r.currentTime <= now
    ensures Happened(r.cfg, o, now, old(Snap(r)), Snap(r), answer, h, h')
  {
    hide *;
    answer := false;
    match o {
      case Frame(_, _, _, _) => answer, h' := DoFrame(r, o, now, h);
      case Beacon(_, _, _, _, _, _, _) => h' := DoBeacon(r, o, now, h);
      case Clients(_, _, _) => h' := DoClients(r, o, now, h);
      case KickTick(_) => h' := DoKickTick(r, o, now, h);
      case NodeMessage(_, _, _, _) => h' := DoNodeMessage(r, o, now, h);
      case UpdateTick => h' := DoUpdateTick(r, o, now, h);
      case LocalInfo(_, _) => h' := DoLocalInfo(r, o, now, h);
      case LocalUp(_, _, _) => h' := DoLocalUp(r, o, now, h);
      case LocalDown(_) => h' := DoLocalDown(r, o, now, h);
      case Timers => h' := DoTimers(r, o, clock, h);
    }
  }

  // ---------------------------------------------------------------- a run

  lemma FirstTimers(cfg: Config, now: nat, x: Table, z: Table, ln: NodeId, clients: seq<ClientReport>, after: map<Ptr,
                    Stamp>)
    requires PollOutcome(cfg, now, x, z, ln, clients, map[], after) && after.Keys <= z.info.Keys
    requires forall p :: p in z.info ==> z.info[p].node == ln
    ensures forall p :: p in after ==> after[p].due == now + cfg.localStaTimeout
  {
    hide AssocIn, DueAfter;
    forall p | p in after
      ensures after[p].due == now + cfg.localStaTimeout
    {
      DueSoonIfAtAll(cfg, now, clients, z.info[p].sta);
      assert Outcome(cfg, now, clients, z.info[p], p in x.info && x.info[p].connected != 0, Due(map[], p), Due(after, p));
    }
  }

  lemma OnlyReading(late: nat, pending: map<Ptr, Stamp>, start: int)
    requires start <= late && forall p :: p in pending ==> late - HALF <= pending[p].due
    ensures Readings(_ => late, pending, start)
  {
  }

  /** From the start: a client is polled as connected, no poll follows, and its entry is freed. */
  method ConnectedIsFreed(cfg: Config, node: NodeId, attributes: Node, addr: Addr, signal: int, at: nat, late: nat)
    returns (r: Registry, ghost connected: Table, p: Ptr)
    requires Sane(cfg) && at + cfg.localStaTimeout <= late <= at + cfg.localStaTimeout + HALF
    ensures r.Valid() && r.cfg == cfg
    ensures p in connected.info && connected.info[p].sta == addr && connected.info[p].node == node
    ensures connected.info[p].connected == 1
    ensures p !in r.table.info
  {
    hide Registry.Core, OtherTimers, PollExpires, Leaves, OnlyAsks, ConnectedOn, Counted, DueAfter;
    r := new Registry(cfg);
    AddNode(r, node, attributes, true, 0);
    ghost var x, before := r.table, r.tq.pending;
    var clients := [ClientReport(addr, true, Some(signal), None)];
    ghost var asked;
    asked := SetAssoc(r, node, clients, at);
    connected := r.table;
    assert clients[0] in clients && HasEntry(r.table, node, clients[0].addr);
    p :| p in r.table.info && r.table.info[p].node == node && r.table.info[p].sta == addr;
    assert AssocIn(clients, addr);
    TimersNow(r);
    FirstTimers(cfg, at, x, r.table, node, clients, r.tq.pending);
    OnlyReading(late, r.tq.pending, r.tq.clock);
    assert IsConnected(r.table, node, p) && ReportOf(clients, 0, addr);
    var time := SilenceFrees(r, node, clients, at, _ => late, x, before);
  }
}
