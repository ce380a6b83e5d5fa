/**
  The daemon's tables and the operations of the station registry on them.
  Freeing an entry takes its pointer out of `info`, so that no list or timer
  may go on using it.
 */
module Registry {
  import opened Types
  import opened Lists
  import opened Timeout
  import opened HearingMap
  import opened Stations
  import opened Candidates

  /** What the daemon tells hostapd about a client of a node. */
  datatype Event =
    | Kicked(p: Ptr)
    | Notified(p: Ptr)
    | ScanTriggered(p: Ptr)
    | BeaconRequested(p: Ptr, request: Request)

  /** Entries of local nodes were last seen in the past, and an armed one is not due before that plus the timeout. */
  ghost predicate Unhurried(cfg: Config, locals: seq<NodeId>, now: nat, info: map<Ptr, StaInfo>, pending: map<Ptr, Stamp>) {
    forall p :: p in info && info[p].node in locals ==>
      && info[p].seen <= now
      && (p in pending ==> pending[p].due >= info[p].seen + cfg.localStaTimeout)
  }

  /** When a timer is due, if it is armed. */
  ghost function Due(pending: map<Ptr, Stamp>, p: Ptr): Option<int> {
    if p in pending then Some(pending[p].due) else None
  }

  ghost function StampOf(pending: map<Ptr, Stamp>, p: Ptr): Option<Stamp> {
    if p in pending then Some(pending[p]) else None
  }

  /** The nodes are the local and the remote ones, each once. */
  ghost predicate Ordered(nodes: set<NodeId>, locals: seq<NodeId>, remotes: seq<NodeId>, counted: set<NodeId>,
                          checked: set<NodeId>) {
    && NoDup(locals + remotes)
    && Elements(locals + remotes) == nodes
    && Elements(locals) == counted
    && Elements(remotes) == checked
  }

  /**
    What the timer clock shows at the readings a drain of `pending` may take (one for each timer, and one more):
    time goes on, and no deadline was missed by half a wrap.
   */
  ghost predicate Readings(clock: nat -> nat, pending: map<Ptr, Stamp>, start: int) {
    && (forall i: nat, j: nat :: i <= j <= |pending| ==> clock(i) <= clock(j))
    && (forall i: nat :: i <= |pending| ==> start <= clock(i))
    && (forall i: nat, id :: i <= |pending| && id in pending ==> clock(i) - HALF <= pending[id].due)
  }

  class Registry {
    const cfg: Config
    const tq: TimeoutQueue
    /** The cached clock. */
    var currentTime: nat
    var nodes: map<NodeId, Node>
    var locals: seq<NodeId>
    var remotes: seq<NodeId>
    /** For each remote node, the update intervals since it was last heard of. */
    var check: map<NodeId, nat>
    /** For each local node, the ticks in a row at or above its load threshold. */
    var loadThrCount: map<NodeId, nat>
    /** The entries, and the lists of the stations and of the nodes. */
    var table: Table
    var trace: seq<Event>

    constructor (cfg: Config)
      requires Sane(cfg)
      ensures Valid() && this.cfg == cfg && fresh(tq) && tq.pending == map[]
      ensures table == Table(map[], map[], map[]) && nodes == map[] && locals == [] && trace == []
      ensures currentTime == 0 && tq.clock == 0
    {
      this.cfg := cfg;
      tq := new TimeoutQueue();
      currentTime := 0;
      nodes, locals, remotes := map[], [], [];
      loadThrCount, check := map[], map[];
      table, trace := Table(map[], map[], map[]), [];
    }

    function Now(): World
      reads this`currentTime, this`nodes, this`locals, this`remotes
    {
      World(cfg, currentTime, nodes, locals + remotes)
    }

    /** The nodes have attributes, a list each and one place in the order. */
    ghost predicate NodesKnown()
      reads this`nodes, this`table, this`locals, this`remotes, this`loadThrCount, this`check
    {
      && nodes.Keys == table.lists.Keys
      && Ordered(nodes.Keys, locals, remotes, loadThrCount.Keys, check.Keys)
    }

    /** Holds at every step of every operation. */
    ghost predicate Core()
      reads this`table, this`nodes, this`locals, this`remotes, this`loadThrCount, this`check, tq
    {
      Sane(cfg) && tq.Valid() && NodesKnown() && Sound(table, tq.pending.Keys)
    }

    /** Holds between operations: no station is without entries either, and no timer is early. */
    ghost predicate Valid()
      reads this`currentTime, this`table, this`nodes, this`locals, this`remotes, this`loadThrCount, this`check, tq
    {
      Core() && Inhabited(table) && Unhurried(cfg, locals, currentTime, table.info, tq.pending)
    }

    lemma EntriesAreKnown()
      requires Core()
      ensures Known(Now(), table.info)
    {
      forall n | n in Now().order
        ensures n in nodes
      {
        assert n in Elements(locals + remotes);
      }
      forall p | p in table.info
        ensures table.info[p].node in nodes
      {
        EntryListed(table, p);
      }
    }

    /** What the search for a better access point comes up with for an entry. */
    ghost function Candidate(p: Ptr): Found
      requires Core() && p in table.info
      reads this, tq
    {
      EntriesAreKnown();
      Search(Now(), table, p)
    }

    /** The answer to a request of the entry's client. */
    ghost predicate Accepting(p: Ptr, kind: EventType)
      requires Core() && p in table.info
      reads this, tq
    {
      EntriesAreKnown();
      Accepts(Now(), table, p, kind)
    }

    method UpdateTime(now: nat)
      requires Valid() && currentTime <= now
      modifies this`currentTime
      ensures Valid() && currentTime == now
    {
      currentTime := now;
    }

    /** Give an entry another payload. */
    method Write(p: Ptr, si: StaInfo)
      requires Core() && p in table.info && si.sta == table.info[p].sta && si.node == table.info[p].node
      requires forall br :: br in si.hearing.reports ==> br.owner == p
      modifies this`table
      ensures Core() && table == old(table).(info := old(table).info[p := si])
    {
      SoundWrite(table, tq.pending.Keys, p, si);
      table := table.(info := table.info[p := si]);
    }

    method Malloc() returns (p: Ptr)
      ensures p !in table.info
    {
      FreshNat(table.info.Keys);
      p :| p !in table.info.Keys;
    }

    /** Find or create a station; a created one is still without entries. */
    method StaGet(addr: Addr)
      requires Core()
      modifies this`table
      ensures Core() && addr in table.stations
      ensures table == if addr in old(table).stations then old(table)
                       else old(table).(stations := old(table).stations[addr := []])
    {
      if addr in table.stations {
        return;
      }
      SoundStation(table, tq.pending.Keys, addr);
      table := table.(stations := table.stations[addr := []]);
    }

    /** The entry of a station for a node, if it has one. */
    method FindEntry(addr: Addr, node: NodeId) returns (r: Option<Ptr>)
      requires Core() && addr in table.stations
      ensures r.Some? ==> r.value in table.info && table.info[r.value].sta == addr && table.info[r.value].node == node
      ensures r.None? ==> forall q :: q in table.info && table.info[q].sta == addr ==> table.info[q].node != node
    {
      StationMembers(table, addr);
      var list := table.stations[addr];
      var i := 0;
      while i < |list|
        invariant 0 <= i <= |list|
        invariant forall j :: 0 <= j < i ==> table.info[list[j]].node != node
      {
        if table.info[list[i]].node == node {
          return Some(list[i]);
        }
        i := i + 1;
      }
      r := None;
    }

    /** The entry of a station for a node, created if there is none. */
    method StaInfoGet(addr: Addr, node: NodeId) returns (p: Ptr, created: bool)
      requires Core() && addr in table.stations && node in nodes
      modifies this`table
      ensures Core() && p in table.info && table.info[p].sta == addr && table.info[p].node == node
      ensures !created ==> table == old(table)
      ensures created ==>
        && p !in old(table).info
        && (forall q :: q in old(table).info && old(table).info[q].sta == addr ==> old(table).info[q].node != node)
        && table == Add(old(table), p, NewEntry(node, addr, nodes[node].freq, currentTime))
    {
      hide Indexed, ReportsOwned, Represents;
      var r := FindEntry(addr, node);
      if r.Some? {
        return r.value, false;
      }
      p := Malloc();
      created := true;
      var si := NewEntry(node, addr, nodes[node].freq, currentTime);
      SoundAdd(table, tq.pending.Keys, p, si);
      table := Table(
        table.info[p := si],
        table.stations[addr := [p] + table.stations[addr]],
        table.lists[node := [p] + table.lists[node]]);
    }

    /** Free an entry, and its station if it was the only one. */
    method StaInfoDel(p: Ptr)
      requires Core() && Inhabited(table) && p in table.info
      modifies this`table, tq`tree, tq`pending
      ensures Core() && Inhabited(table)
      ensures table == Delete(old(table), {p})
      ensures tq.pending == old(tq.pending) - {p}
    {
      hide Indexed, ReportsOwned, Represents, Inhabited, Delete;
      var addr, node := table.info[p].sta, table.info[p].node;
      tq.Cancel(p);
      UnlinkIsDelete(table, p);
      SoundDelete(table, old(tq.pending).Keys, {p});
      var left := Minus(table.stations[addr], {p});
      var stations := table.stations[addr := left];
      if left == [] {
        stations := table.stations - {addr};
      }
      table := Table(table.info - {p}, stations, table.lists[node := Minus(table.lists[node], {p})]);
    }

    static function First(list: seq<Ptr>): Option<Ptr> {
      if list == [] then None else Some(list[0])
    }

    /** The element after `p` in a list that holds it. */
    static function NextOf(list: seq<Ptr>, p: Ptr): Option<Ptr>
      requires p in list
    {
      if list[0] == p then First(list[1..]) else NextOf(list[1..], p)
    }

    /** Free all entries of a node, with the next one remembered before each is freed. */
    method NodeCleanup(node: NodeId)
      requires Core() && Inhabited(table) && node in nodes
      modifies this`table, tq`tree, tq`pending
      ensures Core() && Inhabited(table)
      ensures table == Delete(old(table), Elements(old(table).lists[node]))
      ensures tq.pending == old(tq.pending) - Elements(old(table).lists[node])
    {
      hide Indexed, ReportsOwned, Represents, Delete, Inhabited;
      ghost var start, all, gone := table, table.lists[node], 0;
      CleanupBegins(start, node);
      var si := First(table.lists[node]);
      while si.Some?
        invariant gone <= |all|
        invariant si == First(all[gone..])
        invariant Core() && Inhabited(table)
        invariant table == Delete(start, Elements(all[..gone]))
        invariant tq.pending == old(tq.pending) - Elements(all[..gone])
        decreases |all| - gone
      {
        si := CleanupOne(start, node, gone, si.value);
        ElementsCut(all, gone);
        gone := gone + 1;
      }
      assert all[..gone] == all;
    }

    /** One round of the loop: remember the next entry, free this one. */
    method CleanupOne(ghost start: Table, node: NodeId, ghost gone: nat, p: Ptr) returns (next: Option<Ptr>)
      requires Core() && Inhabited(table)
      requires Indexed(start) && node in start.lists && gone < |start.lists[node]| && p == start.lists[node][gone]
      requires table == Delete(start, Elements(start.lists[node][..gone]))
      modifies this`table, tq`tree, tq`pending
      ensures Core() && Inhabited(table) && next == First(start.lists[node][gone + 1..])
      ensures table == Delete(start, Elements(start.lists[node][..gone + 1]))
      ensures tq.pending == old(tq.pending) - {p}
    {
      hide Indexed, ReportsOwned, Represents, Delete, Inhabited;
      CleanupContinues(start, node, gone);
      var tmp := NextOf(table.lists[node], p);
      StaInfoDel(p);
      next := tmp;
    }

    static lemma CleanupBegins(x: Table, node: NodeId)
      requires Inhabited(x) && node in x.lists
      ensures Delete(x, Elements(x.lists[node][..0])) == x
    {
      DeleteNothing(x);
      assert Elements(x.lists[node][..0]) == {};
    }

    /** With the first `gone` entries of the list freed, the next one is still there and leads on. */
    static lemma CleanupContinues(x: Table, node: NodeId, gone: nat)
      requires Indexed(x) && node in x.lists && gone < |x.lists[node]|
      ensures var all := x.lists[node];
        var y := Delete(x, Elements(all[..gone]));
        && all[gone] in y.info && node in y.lists && y.lists[node] == all[gone..]
        && NextOf(y.lists[node], all[gone]) == First(all[gone + 1..])
        && Delete(y, {all[gone]}) == Delete(x, Elements(all[..gone + 1]))
    {
      var all := x.lists[node];
      var dead := Elements(all[..gone]);
      NodeMembers(x, node);
      assert all == all[..gone] + all[gone..];
      MinusConcat(all[..gone], all[gone..], dead);
      MinusAll(all[..gone], dead);
      MinusNone(all[gone..], dead);
      DeleteCompose(x, dead, {all[gone]});
      ElementsCut(all, gone);
      assert all[gone..][1..] == all[gone + 1..];
    }

    /** Disarm, arm or give up an entry. */
    method UpdateTimeout(p: Ptr, timeout: int, now: nat)
      requires Core() && Inhabited(table) && p in table.info
      requires tq.Timely(now) && timeout < HALF
      modifies this`table, tq
      ensures Core() && Inhabited(table) && tq.Timely(now)
      ensures old(table).info[p].connected == 1 ==> table == old(table) && tq.pending == old(tq.pending) - {p}
      ensures old(table).info[p].connected != 1 && 0 < timeout ==>
        table == old(table) && tq.pending == old(tq.pending)[p := Stamp(now + timeout, old(tq.serial))]
      ensures old(table).info[p].connected != 1 && timeout <= 0 ==>
        table == Delete(old(table), {p}) && tq.pending == old(tq.pending) - {p}
    {
      hide Indexed, ReportsOwned, Represents, Inhabited, Delete;
      if table.info[p].connected == 1 {
        tq.Cancel(p);
      } else if timeout > 0 {
        tq.Set(p, timeout, now);
      } else {
        StaInfoDel(p);
      }
    }

    /** A sign of life: note signal and time, and put the expiry off. */
    method StaInfoUpdate(p: Ptr, signal: int, avg: bool, now: nat)
      requires Valid() && p in table.info
      requires tq.Timely(now) && currentTime <= now
      modifies this`table, tq
      ensures Valid() && tq.Timely(now)
      ensures var si := old(table).info[p];
        table == old(table).(info := old(table).info[p := si.(
          signal := if signal == NO_SIGNAL || (si.connected == 1 && si.signal != NO_SIGNAL && !avg)
                    then si.signal else signal,
          seen := currentTime)])
      ensures tq.pending ==
        if old(table).info[p].connected == 1 then old(tq.pending) - {p}
        else old(tq.pending)[p := Stamp(now + cfg.localStaTimeout, old(tq.serial))]
    {
      hide Indexed, Represents;
      var si := table.info[p];
      var noted := signal;
      if si.connected == 1 && si.signal != NO_SIGNAL && !avg {
        noted := NO_SIGNAL;
      }
      if noted != NO_SIGNAL {
        si := si.(signal := noted);
      }
      Write(p, si.(seen := currentTime));
      UpdateTimeout(p, cfg.localStaTimeout, now);
    }

    /**
      The event loop's callback: free what is due, reading the clock again until nothing is.
      `clock(k)` is the k-th reading; there is at most one more than there are timers.
     */
    method TimeoutCb(clock: nat -> nat) returns (fired: seq<Ptr>, ghost at: seq<nat>, time: nat)
      requires Valid()
      requires Readings(clock, tq.pending, tq.clock)
      modifies this`table, tq
      ensures Valid() && tq.clock == time && clock(0) <= time
      ensures table == Delete(old(table), Elements(fired))
      ensures tq.pending == old(tq.pending) - Elements(fired)
      ensures |at| == |fired|
      ensures forall i :: 0 <= i < |fired| ==> fired[i] in old(tq.pending) && old(tq.pending)[fired[i]].due <= at[i] <= time
      ensures forall i, j :: 0 <= i < j < |fired| ==> Before(old(tq.pending)[fired[i]], old(tq.pending)[fired[j]])
      ensures forall p :: p in tq.pending ==> time < tq.pending[p].due
      ensures forall i :: 0 <= i < |fired| ==> Unseen(cfg, locals, old(table).info, fired[i], at[i])
      ensures tq.tree == [] ==> tq.armed == None
      ensures tq.tree != [] ==> tq.tree[0].id in tq.pending && tq.armed == Some(tq.pending[tq.tree[0].id].due)
    {
      hide Sound, NodesKnown, Sane, Represents, Inhabited, Delete, Unhurried, Drained, Stamped, Unseen, Readings;
      TimersAreEntries(table, tq.pending);
      fired, at, time := DrainQueue(clock);
      UnhurriedDelete(cfg, locals, currentTime, old(table), old(tq.pending), Elements(fired));
      DrainedMeaning(old(tq.pending), tq.pending, fired, at, time);
      FiredAreUnseen(cfg, locals, currentTime, old(table).info, old(tq.pending), fired, at);
      tq.FirstIsFirst();
      tq.Rearm(time);
    }

    /** The loop of the callback: walk along the queue until a walk frees nothing. */
    method DrainQueue(clock: nat -> nat) returns (fired: seq<Ptr>, ghost at: seq<nat>, time: nat)
      requires Core() && Inhabited(table) && Readings(clock, tq.pending, tq.clock)
      modifies this`table, tq`tree, tq`pending
      ensures Core() && Inhabited(table) && tq.Timely(time) && clock(0) <= time
      ensures table == Delete(old(table), Elements(fired))
      ensures Drained(old(tq.pending), tq.pending, fired, time) && Stamped(old(tq.pending), fired, at, time)
      ensures forall p :: p in tq.pending ==> time < tq.pending[p].due
    {
      hide *;
      fired, at := [], [];
      time := clock(0);
      DeleteNothing(table);
      DrainedNone(tq.pending, time);
      ReadingLater(clock, tq.pending, tq, [], time, 0, 0);
      ghost var x, all := table, tq.pending;
      ghost var last: nat := 0;
      var round: nat, found := 0, true;
      while found
        invariant Core() && Inhabited(table) && tq.Timely(time) && clock(0) <= time
        invariant table == Delete(x, Elements(fired))
        invariant Drained(all, tq.pending, fired, time) && Stamped(all, fired, at, time)
        invariant last <= round && time == clock(last)
        invariant round + |tq.pending| <= |all| + if found then 0 else 1
        invariant !found ==> forall p :: p in tq.pending ==> time < tq.pending[p].due
        decreases |tq.pending|, found
      {
        ReadingLater(clock, all, tq, fired, time, last, round);
        ghost var before := time;
        time := clock(round);
        last, round := round, round + 1;
        var now := FireRound(x, all, fired, at, before, time);
        fired, at := fired + now, at + Repeat(time, |now|);
        found := now != [];
      }
    }

    /** One walk, counted with those before it. */
    method FireRound(ghost x: Table, ghost all: map<Ptr, Stamp>, ghost fired: seq<Ptr>, ghost at: seq<nat>,
                     ghost before: nat, time: nat)
      returns (now: seq<Ptr>)
      requires Core() && Inhabited(table) && tq.Timely(time) && before <= time
      requires table == Delete(x, Elements(fired))
      requires Drained(all, tq.pending, fired, before) && Stamped(all, fired, at, before)
      modifies this`table, tq`tree, tq`pending
      ensures Core() && Inhabited(table) && tq.Timely(time)
      ensures table == Delete(x, Elements(fired + now)) && Drained(all, tq.pending, fired + now, time)
      ensures Stamped(all, fired + now, at + Repeat(time, |now|), time)
      ensures |tq.pending| + (if now == [] then 0 else 1) <= old(|tq.pending|)
      ensures forall p :: p in tq.pending ==> time < tq.pending[p].due
    {
      hide *;
      ghost var left := tq.pending;
      now := FireDue(time);
      FewerTimers(left, tq.pending, now, time);
      Drains(all, left, tq.pending, fired, before, now, time);
      DeleteCompose(x, Elements(fired), Elements(now));
      StampedMore(all, tq.pending, fired, at, before, now, time);
    }

    /** One walk along the queue: free entries from the front while they are due at `time`. */
    method FireDue(time: nat) returns (fired: seq<Ptr>)
      requires Core() && Inhabited(table) && tq.Timely(time)
      modifies this`table, tq`tree, tq`pending
      ensures Core() && Inhabited(table) && tq.Timely(time)
      ensures table == Delete(old(table), Elements(fired))
      ensures Drained(old(tq.pending), tq.pending, fired, time)
      ensures forall p :: p in tq.pending ==> time < tq.pending[p].due
    {
      hide Indexed, ReportsOwned, Represents, Inhabited;
      fired := [];
      DeleteNothing(table);
      assert Elements(fired) == {};
      tq.FirstIsFirst();
      while tq.tree != [] && Delta(tq.tree[0].key, Key(time)) <= 0
        invariant Core() && Inhabited(table) && tq.clock == old(tq.clock)
        invariant table == Delete(old(table), Elements(fired))
        invariant Drained(old(tq.pending), tq.pending, fired, time)
        decreases tq.pending.Keys
      {
        FirstDue(time);
        ghost var left := tq.pending;
        var p := FireFirst();
        DrainOne(old(tq.pending), left, fired, time, p);
        DeleteCompose(old(table), Elements(fired), {p});
        ElementsSnoc(fired, p);
        fired := fired + [p];
      }
      FirstDue(time);
    }

    /** The front of the queue tells whether anything is due. */
    lemma FirstDue(time: nat)
      requires tq.Valid() && tq.Timely(time)
      ensures tq.tree == [] ==> tq.pending == map[]
      ensures tq.tree != [] ==> tq.tree[0].id in tq.pending
      ensures forall p :: tq.tree != [] && p in tq.pending && p != tq.tree[0].id ==>
        Before(tq.pending[tq.tree[0].id], tq.pending[p])
      ensures tq.tree != [] ==> (Delta(tq.tree[0].key, Key(time)) <= 0 <==> tq.pending[tq.tree[0].id].due <= time)
    {
      tq.FirstIsFirst();
      if tq.tree != [] {
        DeltaExact(tq.pending[tq.tree[0].id].due, time);
      }
    }

    /** Take the first timer off the queue and run its callback, which frees the entry. */
    method FireFirst() returns (p: Ptr)
      requires Core() && Inhabited(table) && tq.tree != []
      modifies this`table, tq`tree, tq`pending
      ensures Core() && Inhabited(table) && p == old(tq.tree)[0].id
      ensures table == Delete(old(table), {p})
      ensures tq.pending == old(tq.pending) - {p}
    {
      hide Indexed, ReportsOwned, Represents, Inhabited;
      tq.FirstIsFirst();
      p := tq.tree[0].id;
      tq.Cancel(p);
      StaInfoDel(p);
    }
  }

  lemma UnhurriedDelete(cfg: Config, locals: seq<NodeId>, now: nat, x: Table, pending: map<Ptr, Stamp>, dead: set<Ptr>)
    requires Unhurried(cfg, locals, now, x.info, pending)
    ensures Unhurried(cfg, locals, now, Delete(x, dead).info, pending - dead)
  {
  }

  /** `fired` is the beginning of the queue `all`, due at `time`, and `left` is the rest. */
  ghost predicate Drained(all: map<Ptr, Stamp>, left: map<Ptr, Stamp>, fired: seq<Ptr>, time: nat) {
    && left == all - Elements(fired)
    && (forall i :: 0 <= i < |fired| ==> fired[i] in all && all[fired[i]].due <= time)
    && (forall i, j :: 0 <= i < j < |fired| ==> Before(all[fired[i]], all[fired[j]]))
    && (forall i, p :: 0 <= i < |fired| && p in left ==> Before(all[fired[i]], left[p]))
  }

  ghost function Repeat(time: nat, n: nat): seq<nat> {
    seq(n, _ => time)
  }

  /** Each was due at the clock reading it was fired at. */
  ghost predicate Stamped(all: map<Ptr, Stamp>, fired: seq<Ptr>, at: seq<nat>, time: nat) {
    |at| == |fired| && forall i :: 0 <= i < |fired| ==> fired[i] in all && all[fired[i]].due <= at[i] <= time
  }

  /** A local entry freed at `at` gave no sign of life for the whole timeout. */
  ghost predicate Unseen(cfg: Config, locals: seq<NodeId>, info: map<Ptr, StaInfo>, p: Ptr, at: nat) {
    p in info && (info[p].node in locals ==> info[p].seen + cfg.localStaTimeout <= at)
  }

  lemma TimersAreEntries(x: Table, pending: map<Ptr, Stamp>)
    requires Sound(x, pending.Keys)
    ensures forall p :: p in pending ==> p in x.info
  {
  }

  lemma FiredAreUnseen(cfg: Config, locals: seq<NodeId>, now: nat, info: map<Ptr, StaInfo>, pending: map<Ptr, Stamp>,
                       fired: seq<Ptr>, at: seq<nat>)
    requires Unhurried(cfg, locals, now, info, pending) && forall p :: p in pending ==> p in info
    requires |at| == |fired| && forall i :: 0 <= i < |fired| ==> fired[i] in pending && pending[fired[i]].due <= at[i]
    ensures forall i :: 0 <= i < |fired| ==> Unseen(cfg, locals, info, fired[i], at[i])
  {
  }

  /** A round that fires something leaves fewer timers. */
  lemma FewerTimers(before: map<Ptr, Stamp>, after: map<Ptr, Stamp>, fired: seq<Ptr>, time: nat)
    requires Drained(before, after, fired, time)
    ensures |after| + (if fired == [] then 0 else 1) <= |before|
  {
    if fired == [] {
      assert after == before;
    } else {
      assert fired[0] in Elements(fired);
      assert after.Keys <= before.Keys - {fired[0]};
      SubsetSize(after.Keys, before.Keys - {fired[0]});
      assert |after| == |after.Keys| && |before| == |before.Keys|;
    }
  }

  lemma ReadingLater(clock: nat -> nat, all: map<Ptr, Stamp>, tq: TimeoutQueue, fired: seq<Ptr>, time: nat, j: nat, i: nat)
    requires Readings(clock, all, tq.clock) && Drained(all, tq.pending, fired, time) && j <= i <= |all|
    ensures clock(0) <= clock(j) <= clock(i)
    ensures tq.Timely(clock(i))
  {
  }

  lemma DrainedNone(all: map<Ptr, Stamp>, time: nat)
    ensures Drained(all, all, [], time) && Stamped(all, [], [], time) && Elements<Ptr>([]) == {}
  {
  }

  lemma StampedMore(all: map<Ptr, Stamp>, left: map<Ptr, Stamp>, fired: seq<Ptr>, at: seq<nat>, t: nat, more: seq<Ptr>,
                    time: nat)
    requires Stamped(all, fired, at, t) && t <= time && Drained(all, left, fired + more, time)
    ensures Stamped(all, fired + more, at + Repeat(time, |more|), time)
  {
    var r, ats := fired + more, at + Repeat(time, |more|);
    forall i | 0 <= i < |r|
      ensures r[i] in all && all[r[i]].due <= ats[i] <= time
    {
      if i < |fired| { assert r[i] == fired[i]; }
    }
  }

  lemma DrainedMeaning(all: map<Ptr, Stamp>, left: map<Ptr, Stamp>, fired: seq<Ptr>, at: seq<nat>, time: nat)
    requires Drained(all, left, fired, time) && Stamped(all, fired, at, time)
    ensures left == all - Elements(fired) && |at| == |fired|
    ensures forall i :: 0 <= i < |fired| ==> fired[i] in all && all[fired[i]].due <= at[i] <= time
    ensures forall i, j :: 0 <= i < j < |fired| ==> Before(all[fired[i]], all[fired[j]])
  {
  }

  lemma DrainOne(all: map<Ptr, Stamp>, left: map<Ptr, Stamp>, fired: seq<Ptr>, time: nat, p: Ptr)
    requires Drained(all, left, fired, time)
    requires p in left && left[p].due <= time
    requires forall q :: q in left && q != p ==> Before(left[p], left[q])
    ensures Drained(all, left - {p}, fired + [p], time)
  {
    ElementsSnoc(fired, p);
  }

  lemma Drains(all: map<Ptr, Stamp>, mid: map<Ptr, Stamp>, left: map<Ptr, Stamp>, fired: seq<Ptr>, t: nat,
               more: seq<Ptr>, time: nat)
    requires t <= time && Drained(all, mid, fired, t)
    requires Drained(mid, left, more, time)
    ensures Drained(all, left, fired + more, time)
    ensures Elements(fired + more) == Elements(fired) + Elements(more) && left == all - Elements(fired + more)
  {
    assert Elements(fired + more) == Elements(fired) + Elements(more);
    assert left == all - Elements(fired + more);
    var r := fired + more;
    forall i, j | 0 <= i < j < |r|
      ensures Before(all[r[i]], all[r[j]])
    {
      if i < |fired| <= j { assert r[j] in mid; }
    }
  }
}
