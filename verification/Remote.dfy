/**
  Nodes that come and go, and what access points tell each other about their
  stations.
 */
module Remote {
  import opened Types
  import opened Lists
  import opened Timeout
  import opened Stations
  import opened Registry
  import opened Policy
  import opened Events

  // ---------------------------------------------------------------- nodes

  function InsertAt(s: seq<NodeId>, at: nat, n: NodeId): seq<NodeId>
    requires at <= |s|
  {
    s[..at] + [n] + s[at..]
  }

  lemma InsertAtElements(s: seq<NodeId>, at: nat, n: NodeId)
    requires at <= |s| && NoDup(s) && n !in s
    ensures NoDup(InsertAt(s, at, n)) && Elements(InsertAt(s, at, n)) == Elements(s) + {n}
  {
    var r := InsertAt(s, at, n);
    assert forall i :: 0 <= i < |r| ==> r[i] == if i < at then s[i] else if i == at then n else s[i - 1];
    forall x | x in s
      ensures x in r
    {
      var i :| 0 <= i < |s| && s[i] == x;
      assert r[if i < at then i else i + 1] == x;
    }
    assert r[at] == n;
  }

  /** A node without entries yet. */
  lemma SoundNode(x: Table, timers: set<Ptr>, n: NodeId)
    requires Sound(x, timers) && n !in x.lists
    ensures Sound(x.(lists := x.lists[n := []]), timers)
  {
    assert forall p :: p in NodeOf(x.info) ==> NodeOf(x.info)[p] in x.lists;
  }

  /** A node without entries any more. */
  lemma SoundWithoutNode(x: Table, timers: set<Ptr>, n: NodeId)
    requires Sound(x, timers) && n in x.lists && x.lists[n] == []
    ensures Sound(x.(lists := x.lists - {n}), timers)
  {
    forall p | p in NodeOf(x.info)
      ensures NodeOf(x.info)[p] in x.lists - {n}
    {
      assert p in x.lists[NodeOf(x.info)[p]];
    }
  }

  lemma SplitNoDup(s: seq<NodeId>, t: seq<NodeId>)
    ensures NoDup(s + t) ==> NoDup(s) && NoDup(t) && forall x :: x in s ==> x !in t
    ensures NoDup(s) && NoDup(t) && (forall x :: x in s ==> x !in t) ==> NoDup(s + t)
    ensures Elements(s + t) == Elements(s) + Elements(t)
  {
    var st := s + t;
    assert forall i :: 0 <= i < |s| ==> s[i] == st[i];
    assert forall i :: 0 <= i < |t| ==> t[i] == st[|s| + i];
    if NoDup(st) {
      forall x | x in s
        ensures x !in t
      {
        var i :| 0 <= i < |s| && s[i] == x;
        assert st[i] == x;
      }
    }
    if NoDup(s) && NoDup(t) && forall x :: x in s ==> x !in t {
      forall i, j | 0 <= i < j < |st|
        ensures st[i] != st[j]
      {
        if i < |s| <= j {
          assert st[i] in s && st[j] == t[j - |s|];
        } else if |s| <= i {
          assert st[i] == t[i - |s|] && st[j] == t[j - |s|];
        }
      }
    }
  }

  lemma OrderedWith(nodes: set<NodeId>, locals: seq<NodeId>, remotes: seq<NodeId>, counted: set<NodeId>,
                    checked: set<NodeId>, n: NodeId, at: nat)
    requires Ordered(nodes, locals, remotes, counted, checked) && n !in nodes
    ensures at <= |locals| ==> Ordered(nodes + {n}, InsertAt(locals, at, n), remotes, counted + {n}, checked)
    ensures at <= |remotes| ==> Ordered(nodes + {n}, locals, InsertAt(remotes, at, n), counted, checked + {n})
  {
    SplitNoDup(locals, remotes);
    assert n !in Elements(locals) && n !in Elements(remotes);
    if at <= |locals| {
      InsertAtElements(locals, at, n);
      Disjoint(InsertAt(locals, at, n), remotes);
      SplitNoDup(InsertAt(locals, at, n), remotes);
    }
    if at <= |remotes| {
      InsertAtElements(remotes, at, n);
      Disjoint(locals, InsertAt(remotes, at, n));
      SplitNoDup(locals, InsertAt(remotes, at, n));
    }
  }

  lemma Disjoint(s: seq<NodeId>, t: seq<NodeId>)
    requires Elements(s) !! Elements(t)
    ensures forall x :: x in s ==> x !in t
  {
    assert forall x :: x in s ==> x in Elements(s);
    assert forall x :: x in t ==> x in Elements(t);
  }

  lemma OrderedWithout(nodes: set<NodeId>, locals: seq<NodeId>, remotes: seq<NodeId>, counted: set<NodeId>,
                       checked: set<NodeId>, n: NodeId)
    requires Ordered(nodes, locals, remotes, counted, checked)
    ensures Ordered(nodes - {n}, Minus(locals, {n}), Minus(remotes, {n}), counted - {n}, checked - {n})
  {
    SplitNoDup(locals, remotes);
    DroppedNode(locals, n);
    DroppedNode(remotes, n);
    MinusMembers(locals, {n});
    MinusMembers(remotes, {n});
    SplitNoDup(Minus(locals, {n}), Minus(remotes, {n}));
  }

  /** A new node, local or remote, at its place in the order. */
  method AddNode(r: Registry, n: NodeId, node: Node, local: bool, at: nat)
    requires r.Valid() && n !in r.nodes && at <= if local then |r.locals| else |r.remotes|
    modifies r`table, r`nodes, r`locals, r`remotes, r`loadThrCount, r`check
    ensures r.Valid() && r.nodes == old(r.nodes)[n := node]
    ensures r.table == old(r.table).(lists := old(r.table).lists[n := []])
    ensures r.locals == if local then InsertAt(old(r.locals), at, n) else old(r.locals)
    ensures r.remotes == if local then old(r.remotes) else InsertAt(old(r.remotes), at, n)
    ensures r.check == if local then old(r.check) else old(r.check)[n := 0]
    ensures r.loadThrCount == if local then old(r.loadThrCount)[n := 0] else old(r.loadThrCount)
  {
    hide Sound, Represents, Ordered, Unhurried, Inhabited, InsertAt;
    OrderedWith(r.nodes.Keys, r.locals, r.remotes, r.loadThrCount.Keys, r.check.Keys, n, at);
    SoundNode(r.table, r.tq.pending.Keys, n);
    NewNodeUnhurried(r.cfg, r.locals, at, n, r.currentTime, r.table, r.tq.pending);
    SameStations(r.table, r.table.(lists := r.table.lists[n := []]));
    r.table := r.table.(lists := r.table.lists[n := []]);
    r.nodes := r.nodes[n := node];
    if local {
      r.locals := InsertAt(r.locals, at, n);
      r.loadThrCount := r.loadThrCount[n := 0];
      assert r.loadThrCount.Keys == old(r.loadThrCount).Keys + {n};
    } else {
      r.remotes := InsertAt(r.remotes, at, n);
      r.check := r.check[n := 0];
      assert r.check.Keys == old(r.check).Keys + {n};
    }
    assert r.nodes.Keys == old(r.nodes).Keys + {n};
  }

  lemma NewNodeUnhurried(cfg: Config, locals: seq<NodeId>, at: nat, n: NodeId, now: nat, x: Table, pending: map<Ptr, Stamp>)
    requires Sound(x, pending.Keys) && n !in x.lists && Unhurried(cfg, locals, now, x.info, pending)
    ensures at <= |locals| ==> Unhurried(cfg, InsertAt(locals, at, n), now, x.info, pending)
  {
    hide Sound;
    NoEntriesOf(x, pending.Keys, n);
    if at <= |locals| {
      assert forall m :: m in InsertAt(locals, at, n) ==> m in locals || m == n;
    }
  }

  lemma NoEntriesOf(x: Table, timers: set<Ptr>, n: NodeId)
    requires Sound(x, timers) && n !in x.lists
    ensures forall p :: p in x.info ==> x.info[p].node != n
  {
    forall p | p in x.info
      ensures x.info[p].node != n
    {
      EntryListed(x, p);
    }
  }

  /** The order of nodes without one of them. */
  lemma DroppedNode(s: seq<NodeId>, n: NodeId)
    requires NoDup(s)
    ensures NoDup(Minus(s, {n})) && Elements(Minus(s, {n})) == Elements(s) - {n}
  {
    MinusNoDup(s, {n});
    MinusMembers(s, {n});
  }

  /** A node goes: its entries, the stations only it knew, then the node itself. */
  method DropNode(r: Registry, n: NodeId)
    requires r.Valid() && n in r.nodes
    modifies r`table, r`nodes, r`locals, r`remotes, r`loadThrCount, r`check, r.tq`tree, r.tq`pending
    ensures r.Valid() && n in old(r.table).lists
    ensures var y := Delete(old(r.table), Elements(old(r.table).lists[n]));
      r.table == y.(lists := y.lists - {n})
    ensures r.tq.pending == old(r.tq.pending) - Elements(old(r.table).lists[n])
    ensures r.nodes == old(r.nodes) - {n} && r.loadThrCount == old(r.loadThrCount) - {n} && r.check == old(r.check) - {n}
    ensures r.locals == Minus(old(r.locals), {n}) && r.remotes == Minus(old(r.remotes), {n})
  {
    hide Sound, Represents, Delete, Inhabited, Indexed, Unhurried, Ordered;
    CleanedUp(r.cfg, r.locals, r.currentTime, r.table, r.tq.pending, n);
    r.NodeCleanup(n);
    RemoveNode(r, n);
  }

  /** Take a node without entries off the lists. */
  method RemoveNode(r: Registry, n: NodeId)
    requires r.Valid() && n in r.nodes && n in r.table.lists && r.table.lists[n] == []
    modifies r`table, r`nodes, r`locals, r`remotes, r`loadThrCount, r`check
    ensures r.Valid() && r.table == old(r.table).(lists := old(r.table).lists - {n})
    ensures r.nodes == old(r.nodes) - {n} && r.loadThrCount == old(r.loadThrCount) - {n} && r.check == old(r.check) - {n}
    ensures r.locals == Minus(old(r.locals), {n}) && r.remotes == Minus(old(r.remotes), {n})
  {
    hide Sound, Represents, Inhabited, Unhurried, Ordered, Minus;
    OrderedWithout(r.nodes.Keys, r.locals, r.remotes, r.loadThrCount.Keys, r.check.Keys, n);
    MinusMembers(r.locals, {n});
    SoundWithoutNode(r.table, r.tq.pending.Keys, n);
    SameStations(r.table, r.table.(lists := r.table.lists - {n}));
    UnhurriedFewer(r.cfg, r.locals, Minus(r.locals, {n}), r.currentTime, r.table.info, r.tq.pending);
    r.table := r.table.(lists := r.table.lists - {n});
    r.nodes := r.nodes - {n};
    r.loadThrCount := r.loadThrCount - {n};
    r.check := r.check - {n};
    r.locals := Minus(r.locals, {n});
    r.remotes := Minus(r.remotes, {n});
    assert r.nodes.Keys == old(r.nodes).Keys - {n};
  }

  lemma CleanedUp(cfg: Config, locals: seq<NodeId>, now: nat, x: Table, pending: map<Ptr, Stamp>, n: NodeId)
    requires Sound(x, pending.Keys) && Inhabited(x) && n in x.lists && Unhurried(cfg, locals, now, x.info, pending)
    ensures var (dead, y) := (Elements(x.lists[n]), Delete(x, Elements(x.lists[n])));
      && y.lists == x.lists[n := []] && Inhabited(y) && Sound(y, (pending - dead).Keys)
      && Unhurried(cfg, locals, now, y.info, pending - dead)
  {
    hide Indexed, ReportsOwned;
    CleanupMeaning(x, n);
    SoundDelete(x, pending.Keys, Elements(x.lists[n]));
    assert (pending - Elements(x.lists[n])).Keys == pending.Keys - Elements(x.lists[n]);
  }

  lemma SameStations(x: Table, y: Table)
    requires y.stations == x.stations
    ensures Inhabited(x) ==> Inhabited(y)
  {
  }

  lemma UnhurriedFewer(cfg: Config, locals: seq<NodeId>, fewer: seq<NodeId>, now: nat, info: map<Ptr, StaInfo>,
                       pending: map<Ptr, Stamp>)
    requires Unhurried(cfg, locals, now, info, pending) && forall m :: m in fewer ==> m in locals
    ensures Unhurried(cfg, fewer, now, info, pending)
  {
  }

  // ---------------------------------------------------------------- stations of other access points

  /** What one access point tells about one of its entries; `seen` and `timeout` are 32-bit `int`s. */
  datatype StaMsg = StaMsg(addr: Addr, connected: nat, signal: int, seen: int, timeout: int)

  function Int32(x: int): int {
    var m := x % U32;
    if m >= 0x8000_0000 then m - U32 else m
  }

  function StaMessage(cfg: Config, now: nat, si: StaInfo): StaMsg {
    var seen := Int32(Since(now, si.seen));
    StaMsg(si.sta, if si.connected != 0 then 1 else 0, si.signal, seen, Int32(cfg.localStaTimeout - seen))
  }

  /** The entry as the receiver keeps it. */
  function Received(now: nat, msg: StaMsg, si: StaInfo): StaInfo {
    si.(connected := msg.connected % 4, signal := msg.signal, seen := (now - msg.seen) % U64)
  }

  /** Take over what another access point says about a station, unless it is expired already. */
  method AddStation(r: Registry, node: NodeId, msg: StaMsg, now: nat) returns (taken: Option<Ptr>)
    requires r.Valid() && node in r.nodes && node !in r.locals && r.tq.Timely(now) && msg.timeout < HALF
    modifies r`table, r.tq
    ensures r.Valid() && r.tq.Timely(now)
    ensures taken.Some? <==> 0 < msg.timeout
    ensures taken.None? ==> r.table == old(r.table) && r.tq.pending == old(r.tq.pending)
    ensures taken.Some? ==> var p := taken.value;
      && OnlyEntry(old(r.table), r.table, p, node, msg.addr)
      && r.table.info[p] == Received(r.currentTime, msg,
           if p in old(r.table).info then old(r.table).info[p]
           else NewEntry(node, msg.addr, r.nodes[node].freq, r.currentTime))
      && r.tq.pending == if r.table.info[p].connected == 1 then old(r.tq.pending) - {p}
                         else old(r.tq.pending)[p := Stamp(now + msg.timeout, old(r.tq.serial))]
    ensures OneTaken(r.currentTime, now, node, r.nodes[node].freq, msg, old(r.table), r.table,
                     old(r.tq.pending), old(r.tq.serial), r.tq.pending, taken)
  {
    hide Registry.Valid, Registry.Core, OnlyEntry, Indexed;
    taken := None;
    if msg.timeout <= 0 {
      return;
    }
    ghost var x := r.table;
    var p := EntryOf(r, node, msg.addr);
    ghost var y := r.table;
    EntryFacts(x, y, p, node, msg.addr);
    TakeOver(r, p, msg, now);
    OnlyEntryWritten(x, y, p, node, msg.addr, r.table.info[p]);
    taken := Some(p);
  }

  // What a whole message leaves behind: for each station the last word counts.

  /** The last of the messages about a station that is not expired. */
  ghost function LastWord(msgs: seq<StaMsg>, addr: Addr): Option<StaMsg> {
    if msgs == [] then None
    else
      var m := msgs[|msgs| - 1];
      if m.addr == addr && 0 < m.timeout then Some(m) else LastWord(msgs[..|msgs| - 1], addr)
  }

  /** What the last word makes of an entry and its timer. */
  ghost predicate Taken(clock: nat, now: nat, si: StaInfo, si': StaInfo, word: Option<StaMsg>, was: Option<int>,
                        due: Option<int>) {
    match word
    case None => si' == si && due == was
    case Some(m) =>
      && si' == si.(connected := m.connected % 4, signal := m.signal, seen := (clock - m.seen) % U64)
      && due == if m.connected % 4 == 1 then None else Some(now + m.timeout)
  }

  /** An entry of the node is what the messages say, and made only for one of them; any other and its timer are as before. */
  ghost predicate EntryTaken(clock: nat, now: nat, node: NodeId, freq: int, msgs: seq<StaMsg>, x: Table, y: Table,
                             before: map<Ptr, Stamp>, after: map<Ptr, Stamp>, p: Ptr)
    requires p in y.info
  {
    var si := y.info[p];
    && (p in x.info ==> si.node == x.info[p].node && si.sta == x.info[p].sta)
    && (p in x.info && si.node != node ==> si == x.info[p] && StampOf(after, p) == StampOf(before, p))
    && (p !in x.info ==> si.node == node && LastWord(msgs, si.sta).Some?)
    && (si.node == node ==>
          Taken(clock, now, Former(x, p, node, si.sta, freq, clock), si, LastWord(msgs, si.sta), Due(before, p), Due(after,
                                                                                                                     p)))
  }

  ghost predicate StationsTaken(clock: nat, now: nat, node: NodeId, freq: int, msgs: seq<StaMsg>, x: Table, y: Table,
                                before: map<Ptr, Stamp>, after: map<Ptr, Stamp>) {
    && x.info.Keys <= y.info.Keys
    && (forall p :: p in y.info ==> EntryTaken(clock, now, node, freq, msgs, x, y, before, after, p))
    && (forall m :: m in msgs && 0 < m.timeout ==> HasEntry(y, node, m.addr))
  }

  lemma NoWordsYet(clock: nat, now: nat, node: NodeId, freq: int, msgs: seq<StaMsg>, x: Table, pending: map<Ptr, Stamp>)
    ensures StationsTaken(clock, now, node, freq, msgs[..0], x, x, pending, pending)
  {
  }

  /** What `AddStation` does with one message. */
  ghost predicate OneTaken(clock: nat, now: nat, node: NodeId, freq: int, m: StaMsg, y: Table, z: Table,
                           pending: map<Ptr, Stamp>, serial: nat, after: map<Ptr, Stamp>, taken: Option<Ptr>) {
    if m.timeout <= 0 then taken == None && z == y && after == pending
    else
      && taken.Some? && OnlyEntry(y, z, taken.value, node, m.addr)
      && z.info[taken.value] == Received(clock, m, Former(y, taken.value, node, m.addr, freq, clock))
      && after == if z.info[taken.value].connected == 1 then pending - {taken.value}
                  else pending[taken.value := Stamp(now + m.timeout, serial)]
  }

  lemma WordStep(msgs: seq<StaMsg>, i: nat, addr: Addr)
    requires i < |msgs|
    ensures LastWord(msgs[..i + 1], addr)
         == if msgs[i].addr == addr && 0 < msgs[i].timeout then Some(msgs[i]) else LastWord(msgs[..i], addr)
  {
    assert msgs[..i + 1][..i] == msgs[..i];
  }

  /** Another entry of the node is of another station, so it is left alone. */
  lemma OtherStation(y: Table, z: Table, p: Ptr, node: NodeId, addr: Addr, q: Ptr)
    requires Indexed(z) && OnlyEntry(y, z, p, node, addr) && q in z.info && q != p
    ensures q in y.info && z.info[q] == y.info[q] && (z.info[q].node == node ==> z.info[q].sta != addr)
  {
    if z.info[q].node == node { OneStationEach(z, q, p); }
  }

  /** The station's own entry takes the message over whatever was said before. */
  lemma LatestTaken(clock: nat, now: nat, node: NodeId, freq: int, msgs: seq<StaMsg>, i: nat, x: Table, y: Table, z: Table,
                    before: map<Ptr, Stamp>, pending: map<Ptr, Stamp>, serial: nat, after: map<Ptr, Stamp>, p: Ptr)
    requires i < |msgs| && 0 < msgs[i].timeout && StationsTaken(clock, now, node, freq, msgs[..i], x, y, before, pending)
    requires OneTaken(clock, now, node, freq, msgs[i], y, z, pending, serial, after, Some(p))
    ensures p in z.info && z.info[p].sta == msgs[i].addr && z.info[p].node == node
    ensures Taken(clock, now, Former(x, p, node, msgs[i].addr, freq, clock), z.info[p], Some(msgs[i]), Due(before, p),
                  Due(after, p))
  {
    hide LastWord;
    assert p in y.info ==> EntryTaken(clock, now, node, freq, msgs[..i], x, y, before, pending, p);
  }

  lemma EntryStep(clock: nat, now: nat, node: NodeId, freq: int, msgs: seq<StaMsg>, i: nat, x: Table, y: Table, z: Table,
                  before: map<Ptr, Stamp>, pending: map<Ptr, Stamp>, serial: nat, after: map<Ptr, Stamp>,
                    taken: Option<Ptr>, q: Ptr)
    requires i < |msgs| && Indexed(z) && StationsTaken(clock, now, node, freq, msgs[..i], x, y, before, pending)
    requires OneTaken(clock, now, node, freq, msgs[i], y, z, pending, serial, after, taken) && q in z.info
    ensures EntryTaken(clock, now, node, freq, msgs[..i + 1], x, z, before, after, q)
  {
    hide Indexed, LastWord, Taken, Former, Received, HasEntry;
    WordStep(msgs, i, z.info[q].sta);
    assert q in y.info ==> EntryTaken(clock, now, node, freq, msgs[..i], x, y, before, pending, q);
    if 0 < msgs[i].timeout {
      if q == taken.value {
        LatestTaken(clock, now, node, freq, msgs, i, x, y, z, before, pending, serial, after, q);
      } else {
        OtherStation(y, z, taken.value, node, msgs[i].addr, q);
      }
    }
  }

  lemma StationsStep(clock: nat, now: nat, node: NodeId, freq: int, msgs: seq<StaMsg>, i: nat, x: Table, y: Table, z: Table,
                     before: map<Ptr, Stamp>, pending: map<Ptr, Stamp>, serial: nat, after: map<Ptr, Stamp>,
                       taken: Option<Ptr>)
    requires i < |msgs| && Indexed(z) && StationsTaken(clock, now, node, freq, msgs[..i], x, y, before, pending)
    requires OneTaken(clock, now, node, freq, msgs[i], y, z, pending, serial, after, taken)
    ensures StationsTaken(clock, now, node, freq, msgs[..i + 1], x, z, before, after)
  {
    hide Indexed, EntryTaken, HasEntry;
    EntriesRemain(node, msgs, i, y, z, taken);
    forall q | q in z.info
      ensures EntryTaken(clock, now, node, freq, msgs[..i + 1], x, z, before, after, q)
    {
      EntryStep(clock, now, node, freq, msgs, i, x, y, z, before, pending, serial, after, taken, q);
    }
  }

  lemma EntriesRemain(node: NodeId, msgs: seq<StaMsg>, i: nat, y: Table, z: Table, taken: Option<Ptr>)
    requires i < |msgs| && forall m :: m in msgs[..i] && 0 < m.timeout ==> HasEntry(y, node, m.addr)
    requires if msgs[i].timeout <= 0 then z == y else taken.Some? && OnlyEntry(y, z, taken.value, node, msgs[i].addr)
    ensures forall m :: m in msgs[..i + 1] && 0 < m.timeout ==> HasEntry(z, node, m.addr)
  {
    forall m | m in msgs[..i + 1] && 0 < m.timeout
      ensures HasEntry(z, node, m.addr)
    {
      if m in msgs[..i] {
        var q :| q in y.info && y.info[q].node == node && y.info[q].sta == m.addr;
        assert q in z.info && z.info[q].node == node && z.info[q].sta == m.addr;
      } else {
        assert taken.value in z.info && z.info[taken.value].node == node && z.info[taken.value].sta == msgs[i].addr;
      }
    }
  }

  /** All stations of a message. */
  method AddStations(r: Registry, node: NodeId, msgs: seq<StaMsg>, now: nat)
    requires r.Valid() && node in r.nodes && node !in r.locals && r.tq.Timely(now)
    requires forall i :: 0 <= i < |msgs| ==> msgs[i].timeout < HALF
    modifies r`table, r.tq
    ensures r.Valid() && r.tq.Timely(now) && r.table.lists.Keys == old(r.table).lists.Keys
    ensures StationsTaken(r.currentTime, now, node, r.nodes[node].freq, msgs, old(r.table), r.table,
                          old(r.tq.pending), r.tq.pending)
  {
    hide Registry.Valid, Registry.Core, Indexed, StationsTaken, OneTaken, OnlyEntry;
    var i := 0;
    NoWordsYet(r.currentTime, now, node, r.nodes[node].freq, msgs, r.table, r.tq.pending);
    KnownNow(r);
    while i < |msgs|
      invariant 0 <= i <= |msgs| && r.Valid() && r.tq.Timely(now) && r.table.lists.Keys == old(r.table).lists.Keys
      invariant StationsTaken(r.currentTime, now, node, r.nodes[node].freq, msgs[..i], old(r.table), r.table,
                              old(r.tq.pending), r.tq.pending)
    {
      ghost var y, pending, serial := r.table, r.tq.pending, r.tq.serial;
      KnownNow(r);
      var taken := AddStation(r, node, msgs[i], now);
      KnownNow(r);
      StationsStep(r.currentTime, now, node, r.nodes[node].freq, msgs, i, old(r.table), y, r.table,
                   old(r.tq.pending), pending, serial, r.tq.pending, taken);
      i := i + 1;
    }
    assert msgs[..i] == msgs;
  }

  /** Overwrite the entry with the message, and arm or disarm its timer. */
  method TakeOver(r: Registry, p: Ptr, msg: StaMsg, now: nat)
    requires r.Valid() && p in r.table.info && r.table.info[p].node !in r.locals
    requires r.tq.Timely(now) && 0 < msg.timeout < HALF
    modifies r`table, r.tq
    ensures r.Valid() && r.tq.Timely(now)
    ensures r.table == old(r.table).(info := old(r.table).info[p := Received(r.currentTime, msg, old(r.table).info[p])])
    ensures r.tq.pending == if r.table.info[p].connected == 1 then old(r.tq.pending) - {p}
                            else old(r.tq.pending)[p := Stamp(now + msg.timeout, old(r.tq.serial))]
  {
    hide Indexed, ReportsOwned, Represents;
    OwnReports(r, p);
    r.Write(p, Received(r.currentTime, msg, r.table.info[p]));
    r.UpdateTimeout(p, msg.timeout, now);
  }

  lemma OnlyEntryWritten(x: Table, y: Table, p: Ptr, node: NodeId, addr: Addr, si: StaInfo)
    requires OnlyEntry(x, y, p, node, addr) && si.node == node && si.sta == addr
    ensures OnlyEntry(x, y.(info := y.info[p := si]), p, node, addr)
  {
  }

  /**
    An entry handed on: a live entry of one access point arrives with the same signal, state and age,
    and its timer there is set for what is left of the sender's timeout. It is due when that is used up,
    counted from the last sight on the receiver's cached clock, later by what that clock lags behind.
   */
  lemma HandOver(cfg: Config, sent: nat, si: StaInfo, arrived: nat, now: nat, base: StaInfo)
    requires si.connected <= 3 && si.seen <= sent && sent - si.seen < cfg.localStaTimeout < 0x8000_0000
    requires arrived <= now && arrived < U64 && si.seen < U64
    ensures var msg := StaMessage(cfg, sent, si);
      var si' := Received(arrived, msg, base);
      && 0 < msg.timeout < HALF
      && (si'.connected != 0 <==> si.connected != 0) && si'.connected <= 1 && si'.signal == si.signal
      && Since(arrived, si'.seen) == sent - si.seen
      && msg.timeout == cfg.localStaTimeout - Since(arrived, si'.seen)
      && now + msg.timeout == (arrived - Since(arrived, si'.seen)) + cfg.localStaTimeout + (now - arrived)
  {
    var age := sent - si.seen;
    assert Since(sent, si.seen) == age && Int32(age) == age;
    if age <= arrived {
      assert (arrived - age) % U64 == arrived - age;
    } else {
      assert (arrived - age) % U64 == arrived - age + U64;
      assert (arrived - (arrived - age + U64)) % U64 == age by {
        assert arrived - (arrived - age + U64) == age - U64;
      }
    }
  }

  /** Exactly which entries are taken over: live ones, and those so old that their age wraps in 32 bits. */
  lemma TakenWhenAlive(cfg: Config, sent: nat, si: StaInfo)
    requires si.seen <= sent && sent - si.seen < U32 && cfg.localStaTimeout < 0x8000_0000
    ensures var age := sent - si.seen;
      0 < StaMessage(cfg, sent, si).timeout <==> age < cfg.localStaTimeout || cfg.localStaTimeout + 0x8000_0000 < age
  {
    var age := sent - si.seen;
    var seen := if age < 0x8000_0000 then age else age - U32;
    assert Int32(Since(sent, si.seen)) == seen;
    var left := cfg.localStaTimeout - seen;
    if left < 0 {
      assert left % U32 == left + U32;
    } else {
      assert left % U32 == left;
    }
  }

  /** The attributes a node message carries. */
  method UpdateNode(r: Registry, n: NodeId, node: Node)
    requires r.Valid() && n in r.nodes && n in r.check
    modifies r`nodes, r`check
    ensures r.Valid() && r.nodes == old(r.nodes)[n := node] && r.check == old(r.check)[n := 0]
  {
    hide Sound, Represents, Ordered, Unhurried, Inhabited;
    r.check := r.check[n := 0];
    r.nodes := r.nodes[n := node];
    assert r.nodes.Keys == old(r.nodes).Keys && r.check.Keys == old(r.check).Keys;
  }

  // ---------------------------------------------------------------- ageing

  function CheckLimit(cfg: Config): nat
    requires Sane(cfg)
  {
    cfg.remoteNodeTimeout / cfg.remoteUpdateInterval
  }

  /** What one pass has done to the remote nodes of `done`. */
  ghost predicate Aged(limit: nat, done: set<NodeId>, check: map<NodeId, nat>, check': map<NodeId, nat>) {
    && check'.Keys == (set n | n in check && (n in done ==> check[n] <= limit))
    && forall n :: n in check' ==> n in check && check'[n] == if n in done then check[n] + 1 else check[n]
  }

  /** The tables keep exactly the entries of nodes that are left, unchanged. */
  ghost predicate KeptWithNodes(x: Table, y: Table, nodes: set<NodeId>) {
    && (forall p :: p in y.info <==> p in x.info && x.info[p].node in nodes)
    && (forall p :: p in y.info ==> y.info[p] == x.info[p])
  }

  /** The timers of the entries left run on, the others are gone. */
  ghost predicate TimersLeft(y: Table, before: map<Ptr, Stamp>, after: map<Ptr, Stamp>) {
    after == map p | p in before && p in y.info :: before[p]
  }

  lemma DropKeepsTimers(x: Table, y: Table, n: NodeId, z: Table, t0: map<Ptr, Stamp>, t1: map<Ptr, Stamp>, t2: map<Ptr,
                        Stamp>)
    requires Indexed(y) && Inhabited(y) && n in y.lists && TimersLeft(y, t0, t1)
    requires z.info == Delete(y, Elements(y.lists[n])).info && t2 == t1 - Elements(y.lists[n])
    ensures TimersLeft(z, t0, t2)
  {
    hide Indexed;
  }

  lemma DropKeeps(x: Table, y: Table, z: Table, nodes: set<NodeId>, n: NodeId)
    requires Indexed(y) && Inhabited(y) && n in y.lists && KeptWithNodes(x, y, nodes)
    requires z.info == Delete(y, Elements(y.lists[n])).info
    ensures KeptWithNodes(x, z, nodes - {n})
  {
    hide Indexed;
    CleanupMeaning(y, n);
  }

  lemma KeptAtFirst(x: Table, nodes: set<NodeId>)
    requires Indexed(x) && x.lists.Keys == nodes
    ensures KeptWithNodes(x, x, nodes)
  {
    forall p | p in x.info
      ensures x.info[p].node in nodes
    {
      EntryListed(x, p);
    }
  }

  /** A pass over the remote nodes `todo` so far: those of the first `i` that were silent for too long are gone. */
  ghost predicate AgeingSoFar(limit: nat, todo: seq<NodeId>, i: nat, x: Table, nodes0: map<NodeId, Node>,
                              check0: map<NodeId, nat>,
                              timers0: map<Ptr, Stamp>, y: Table, nodes: map<NodeId, Node>, check: map<NodeId, nat>,
                              timers: map<Ptr, Stamp>, remotes: seq<NodeId>)
    requires i <= |todo|
  {
    && Aged(limit, Elements(todo[..i]), check0, check)
    && nodes == nodes0 - (check0.Keys - check.Keys) && remotes == Minus(todo, check0.Keys - check.Keys)
    && KeptWithNodes(x, y, nodes.Keys) && TimersLeft(y, timers0, timers)
  }

  lemma NoneAgedYet(limit: nat, todo: seq<NodeId>, x: Table, nodes: map<NodeId, Node>, check: map<NodeId, nat>,
                    timers: map<Ptr, Stamp>)
    requires Indexed(x) && x.lists.Keys == nodes.Keys && timers.Keys <= x.info.Keys
    ensures AgeingSoFar(limit, todo, 0, x, nodes, check, timers, x, nodes, check, timers, todo)
  {
    hide Indexed;
    KeptAtFirst(x, nodes.Keys);
    MinusNone(todo, {});
    assert check.Keys - check.Keys == {} && Elements(todo[..0]) == {} && nodes - {} == nodes;
  }

  /** One more update interval without a message: remote nodes that were silent for too long go. */
  method CheckTimeout(r: Registry)
    requires r.Valid()
    modifies r`table, r`nodes, r`locals, r`remotes, r`loadThrCount, r`check, r.tq`tree, r.tq`pending
    ensures r.Valid() && r.locals == old(r.locals)
    ensures Aged(CheckLimit(r.cfg), old(r.check).Keys, old(r.check), r.check)
    ensures r.nodes == old(r.nodes) - (old(r.check).Keys - r.check.Keys)
    ensures KeptWithNodes(old(r.table), r.table, r.nodes.Keys)
    ensures TimersLeft(r.table, old(r.tq.pending), r.tq.pending)
    ensures r.remotes == Minus(old(r.remotes), old(r.check).Keys - r.check.Keys) && r.loadThrCount == old(r.loadThrCount)
  {
    KnownNow(r);
    TimersNow(r);
    RemotesChecked(r);
    var limit := r.cfg.remoteNodeTimeout / r.cfg.remoteUpdateInterval;
    var todo := r.remotes;
    NoneAgedYet(limit, todo, r.table, r.nodes, r.check, r.tq.pending);
    hide Registry.Valid, AgeingSoFar;
    var i := 0;
    while i < |todo|
      invariant 0 <= i <= |todo| && r.Valid() && r.locals == old(r.locals) && r.loadThrCount == old(r.loadThrCount)
      invariant NoDup(todo) && Elements(todo) == old(r.check).Keys
      invariant forall n :: n in todo ==> n !in r.locals
      invariant AgeingSoFar(limit, todo, i, old(r.table), old(r.nodes), old(r.check), old(r.tq.pending),
                            r.table, r.nodes, r.check, r.tq.pending, r.remotes)
    {
      AgeNext(r, todo, i, limit, old(r.table), old(r.nodes), old(r.check), old(r.tq.pending));
      i := i + 1;
    }
    AllAged(limit, todo, old(r.table), old(r.nodes), old(r.check), old(r.tq.pending),
            r.table, r.nodes, r.check, r.tq.pending, r.remotes);
  }

  lemma AllAged(limit: nat, todo: seq<NodeId>, x: Table, nodes0: map<NodeId, Node>, check0: map<NodeId, nat>,
                timers0: map<Ptr, Stamp>, y: Table, nodes: map<NodeId, Node>, check: map<NodeId, nat>,
                timers: map<Ptr, Stamp>, remotes: seq<NodeId>)
    requires Elements(todo) == check0.Keys
    requires AgeingSoFar(limit, todo, |todo|, x, nodes0, check0, timers0, y, nodes, check, timers, remotes)
    ensures Aged(limit, check0.Keys, check0, check) && nodes == nodes0 - (check0.Keys - check.Keys)
    ensures KeptWithNodes(x, y, nodes.Keys) && TimersLeft(y, timers0, timers) && remotes == Minus(todo,
                                                                                                  check0.Keys - check.Keys)
  {
    assert todo[..|todo|] == todo;
  }

  /** One round of the loop. */
  method AgeNext(r: Registry, todo: seq<NodeId>, i: nat, limit: nat, ghost x: Table,
                 ghost nodes0: map<NodeId, Node>, ghost check0: map<NodeId, nat>, ghost timers0: map<Ptr, Stamp>)
    requires r.Valid() && i < |todo| && NoDup(todo) && Elements(todo) == check0.Keys && todo[i] !in r.locals
    requires AgeingSoFar(limit, todo, i, x, nodes0, check0, timers0, r.table, r.nodes, r.check, r.tq.pending, r.remotes)
    modifies r`table, r`nodes, r`locals, r`remotes, r`loadThrCount, r`check, r.tq`tree, r.tq`pending
    ensures r.Valid() && r.locals == old(r.locals) && r.loadThrCount == old(r.loadThrCount)
    ensures AgeingSoFar(limit, todo, i + 1, x, nodes0, check0, timers0, r.table, r.nodes, r.check, r.tq.pending, r.remotes)
  {
    hide Registry.Valid, Registry.Core, KeptWithNodes, Aged, TimersLeft, Minus;
    var n := todo[i];
    assert n in Elements(todo) && n !in Elements(todo[..i]);
    ElementsCut(todo, i);
    ghost var nodes, check := r.nodes, r.check;
    AgedKeys(limit, Elements(todo[..i]), check0, check, n);
    AgeOne(r, n, limit, x, timers0);
    AgedStep(limit, Elements(todo[..i]), check0, check, r.check, n);
    NodesStep(nodes0, nodes, r.nodes, check0.Keys, check.Keys, r.check.Keys, n);
    MinusCompose(todo, check0.Keys - check.Keys, {n});
    assert check0.Keys - r.check.Keys == check0.Keys - check.Keys
        || check0.Keys - r.check.Keys == check0.Keys - check.Keys + {n};
  }

  lemma NodesStep(nodes0: map<NodeId, Node>, nodes: map<NodeId, Node>, nodes': map<NodeId, Node>,
                  checks0: set<NodeId>, checks: set<NodeId>, checks': set<NodeId>, n: NodeId)
    requires nodes == nodes0 - (checks0 - checks) && n in checks && n in checks0
    requires (nodes' == nodes && checks' == checks) || (nodes' == nodes - {n} && checks' == checks - {n})
    ensures nodes' == nodes0 - (checks0 - checks')
  {
  }

  lemma AgedKeys(limit: nat, done: set<NodeId>, check0: map<NodeId, nat>, check: map<NodeId, nat>, n: NodeId)
    requires Aged(limit, done, check0, check) && n in check0 && n !in done
    ensures n in check
  {
  }

  lemma AgedStep(limit: nat, done: set<NodeId>, check0: map<NodeId, nat>, check: map<NodeId, nat>, check': map<NodeId,
                 nat>, n: NodeId)
    requires Aged(limit, done, check0, check) && n in check0 && n !in done && n in check
    requires check' == if check[n] > limit then check - {n} else check[n := check[n] + 1]
    ensures Aged(limit, done + {n}, check0, check')
  {
  }

  lemma LocalsCounted(r: Registry, n: NodeId)
    requires r.Valid() && n !in r.locals
    ensures n !in r.loadThrCount
  {
    assert r.loadThrCount.Keys == Elements(r.locals);
  }

  lemma CountsAreLocal(counts: map<NodeId, nat>, n: NodeId)
    requires n !in counts
    ensures counts - {n} == counts
  {
  }

  lemma RemotesChecked(r: Registry)
    requires r.Valid()
    ensures NoDup(r.remotes) && Elements(r.remotes) == r.check.Keys && Sane(r.cfg)
    ensures forall n :: n in r.remotes ==> n !in r.locals
    ensures r.check.Keys <= r.nodes.Keys && r.check.Keys !! Elements(r.locals)
  {
    SplitNoDup(r.locals, r.remotes);
    assert forall n :: n in r.locals ==> n !in r.remotes;
  }

  /** One remote node in the pass: its counter is incremented, and it goes if that was above the limit. */
  method AgeOne(r: Registry, n: NodeId, limit: nat, ghost x: Table, ghost timers0: map<Ptr, Stamp>)
    requires r.Valid() && n in r.check && n !in r.locals && KeptWithNodes(x, r.table, r.nodes.Keys)
    requires TimersLeft(r.table, timers0, r.tq.pending)
    modifies r`table, r`nodes, r`locals, r`remotes, r`loadThrCount, r`check, r.tq`tree, r.tq`pending
    ensures r.Valid() && r.locals == old(r.locals) && KeptWithNodes(x, r.table, r.nodes.Keys)
    ensures TimersLeft(r.table, timers0, r.tq.pending)
    ensures r.check == if old(r.check)[n] > limit then old(r.check) - {n} else old(r.check)[n := old(r.check)[n] + 1]
    ensures r.nodes == if old(r.check)[n] > limit then old(r.nodes) - {n} else old(r.nodes)
    ensures r.remotes == (if old(r.check)[n] > limit then Minus(old(r.remotes), {n}) else old(r.remotes))
    ensures r.loadThrCount == old(r.loadThrCount)
  {
    hide Registry.Core, Indexed, KeptWithNodes, Delete, Ordered, Inhabited, Unhurried, TimersLeft;
    KnownNow(r);
    RemotesChecked(r);
    assert n !in r.loadThrCount by { LocalsCounted(r, n); }
    var silent := r.check[n];
    Recheck(r, n, silent + 1);
    if silent > limit {
      ghost var y, timers := r.table, r.tq.pending;
      DropNode(r, n);
      DropKeepsTimers(x, y, n, r.table, timers0, timers, r.tq.pending);
      DropKeeps(x, y, r.table, old(r.nodes).Keys, n);
      MinusNone(old(r.locals), {n});
      CountsAreLocal(old(r.loadThrCount), n);
      assert r.nodes.Keys == old(r.nodes).Keys - {n};
      assert old(r.check)[n := silent + 1] - {n} == old(r.check) - {n};
    }
  }

  method Recheck(r: Registry, n: NodeId, count: nat)
    requires r.Valid() && n in r.check
    modifies r`check
    ensures r.Valid() && r.check == old(r.check)[n := count]
  {
    r.check := r.check[n := count];
    assert r.check.Keys == old(r.check).Keys;
  }

  // ---------------------------------------------------------------- ageing over a run

  datatype Sign = Heard | Tick

  /** The counter of one remote node after a run of messages and ticks; `None` once it is freed. */
  function CheckAfter(limit: nat, signs: seq<Sign>): Option<nat> {
    if signs == [] then Some(0)
    else
      var before := CheckAfter(limit, signs[..|signs| - 1]);
      if before.None? then None
      else match signs[|signs| - 1]
        case Heard => Some(0)
        case Tick => if before.value > limit then None else Some(before.value + 1)
  }

  ghost predicate SilentFor(signs: seq<Sign>, from: int, n: nat) {
    0 <= from && from + n <= |signs| && forall i :: from <= i < from + n ==> signs[i] == Tick
  }

  /** Silent for the limit plus two ticks in a row, from `from` on. */
  ghost predicate TooSilent(limit: nat, signs: seq<Sign>, from: int) {
    SilentFor(signs, from, limit + 2)
  }

  /** The limit in time: as many whole intervals as fit into the timeout. */
  lemma LimitInTime(cfg: Config)
    requires Sane(cfg)
    ensures CheckLimit(cfg) * cfg.remoteUpdateInterval <= cfg.remoteNodeTimeout
    ensures cfg.remoteNodeTimeout < (CheckLimit(cfg) + 1) * cfg.remoteUpdateInterval
  {
    var (t, u) := (cfg.remoteNodeTimeout, cfg.remoteUpdateInterval);
    assert t == t / u * u + t % u;
  }

  /** A pass over the nodes is one tick for each of them, in the run of its own messages and ticks. */
  lemma AgedIsTick(limit: nat, check: map<NodeId, nat>, check': map<NodeId, nat>, n: NodeId, signs: seq<Sign>)
    requires Aged(limit, check.Keys, check, check') && n in check && CheckAfter(limit, signs) == Some(check[n])
    ensures CheckAfter(limit, signs + [Tick]) == if n in check' then Some(check'[n]) else None
  {
    assert (signs + [Tick])[..|signs|] == signs;
  }

  /** A node still there has been silent for exactly as many ticks as its counter says. */
  lemma {:induction false} CounterIsSilence(limit: nat, signs: seq<Sign>)
    requires CheckAfter(limit, signs).Some?
    ensures var c := CheckAfter(limit, signs).value;
      && c <= limit + 1 && SilentFor(signs, |signs| - c, c)
      && (c < |signs| ==> signs[|signs| - c - 1] == Heard)
  {
    if signs != [] {
      var n := |signs| - 1;
      var front := signs[..n];
      CounterIsSilence(limit, front);
      assert forall i :: 0 <= i < n ==> front[i] == signs[i];
    }
  }

  /** A node is freed exactly when it was silent for the limit plus two ticks in a row. */
  lemma {:induction false} FreedWhenSilent(limit: nat, signs: seq<Sign>)
    ensures CheckAfter(limit, signs).None? <==> exists from :: TooSilent(limit, signs, from)
  {
    if signs != [] {
      var n := |signs| - 1;
      var front := signs[..n];
      FreedWhenSilent(limit, front);
      assert forall i :: 0 <= i < n ==> front[i] == signs[i];
      if CheckAfter(limit, front).None? {
        var from :| TooSilent(limit, front, from);
        assert TooSilent(limit, signs, from);
      } else {
        CounterIsSilence(limit, front);
        LastSilence(limit, signs, front);
      }
    }
  }

  lemma LastSilence(limit: nat, signs: seq<Sign>, front: seq<Sign>)
    requires signs != [] && front == signs[..|signs| - 1] && CheckAfter(limit, front).Some?
    requires !exists from :: TooSilent(limit, front, from)
    ensures CheckAfter(limit, signs).None? <==> exists from :: TooSilent(limit, signs, from)
  {
    var n := |signs| - 1;
    CounterIsSilence(limit, front);
    var c := CheckAfter(limit, front).value;
    assert forall i :: 0 <= i < n ==> front[i] == signs[i];
    if CheckAfter(limit, signs).None? {
      assert TooSilent(limit, signs, n - c);
    }
    if from :| TooSilent(limit, signs, from) {
      assert !TooSilent(limit, front, from);
      assert signs[n] == Tick;
      assert c < n ==> front[n - c - 1] == Heard;
    }
  }
}
