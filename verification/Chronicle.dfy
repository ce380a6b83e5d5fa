/**
  What the operations put into the lives of the entries.
 */
module Chronicle {
  import opened Types
  import opened Lists
  import opened Timeout
  import opened HearingMap
  import opened Roam
  import opened Stations
  import opened Candidates
  import opened Kicking
  import opened Blocking
  import opened Registry
  import opened Policy
  import opened Events
  import opened Poll
  import opened Remote
  import opened History
  import opened Effects

  /** The entries that were there, and new ones from `before` on, took these inputs, cache operations and requests. */
  ghost predicate Took(h: map<Ptr, Life>, h': map<Ptr, Life>, p: Ptr, before: nat, ins: seq<Input>, cache: seq<Timed>,
                       tried: seq<Asked> := [])
    requires p in h'
  {
    if p in h then h'[p] == Life(h[p].born, h[p].ins + ins, h[p].cache + cache, h[p].tries + tried)
    else before <= h'[p].born && h'[p].ins == ins && h'[p].cache == cache && h'[p].tries == tried
  }

  /** Nothing happened to those left. */
  ghost predicate Unmoved(h: map<Ptr, Life>, h': map<Ptr, Life>, before: nat) {
    forall p :: p in h' ==> Took(h, h', p, before, [], [])
  }

  /** What the passes of a tick put into the life of an entry: an examination, and a kick by one of the other passes. */
  ghost function TickInputs(w: World, ln: NodeId, x: Table, t: Passes, p: Ptr): seq<Input>
    requires Serving(w, ln, x) && t.n <= |x.lists[ln]|
  {
    More(Exams(w, ln, x, t.n), p) + More(KickedAt(t.k2, w.now), p) + More(KickedAt(t.k3, w.now), p)
  }

  ghost predicate TickTook(w: World, ln: NodeId, x: Table, t: Passes, before: nat, h: map<Ptr, Life>, h': map<Ptr, Life>)
    requires Serving(w, ln, x) && t.n <= |x.lists[ln]|
  {
    forall p :: p in h' ==> Took(h, h', p, before, TickInputs(w, ln, x, t, p), [])
  }

  /** A frame is one input and one request of its client, which the policy would refuse or not. */
  ghost predicate FrameTook(p: Ptr, kind: EventType, t: Try, before: nat, h: map<Ptr, Life>, h': map<Ptr, Life>) {
    forall q :: q in h' ==>
      if q == p then Took(h, h', q, before, [Roam.Heard(t.at)], [], [Asked(kind, t)]) else Took(h, h', q, before, [], [])
  }

  /**
    What an operation puts into the lives: a frame is heard by the machine of its client and is one request of it, a
    report goes into the cache of its client, a poll sweeps caches, and a tick of a node examines clients and kicks.
   */
  ghost predicate Recorded(cfg: Config, o: Op, now: nat, s: Snapshot, s': Snapshot, answer: bool, h: map<Ptr, Life>,
                           h': map<Ptr, Life>) {
    if Ignored(o, s) then h' == h
    else
      match o
      case Frame(node, addr, kind, signal) =>
        exists p, mid :: FrameDone(cfg, node, addr, kind, signal, now, s, s', answer, p, mid)
          && FrameTook(p, kind, Try(now, Refuses(WorldOf(cfg, s'), mid, p, kind)), |s.trace|, h, h')
      case Beacon(node, addr, bssid, rcpi, rsni, opClass, channel) =>
        forall p :: p in h' ==>
          Took(h, h', p, |s.trace|, [],
               if IsEntry(s.table, p, node, addr) && KnownBssid(WorldOf(cfg, s), bssid)
               then [Timed(now, Accept(Report(p, bssid, rcpi, rsni, opClass, channel, now)))] else [])
      case Clients(_, _, _) =>
        forall p :: p in h' ==> Took(h, h', p, |s.trace|, [], []) || Took(h, h', p, |s.trace|, [], [Timed(s.clock,
                                                                                                          CacheOp.Sweep)])
      case KickTick(node) =>
        exists t :: TickDone(cfg, node, now, s, s', t) && TickTook(WorldOf(cfg, s'), node, s.table, t, |s.trace|, h, h')
      case _ => Unmoved(h, h', |s.trace|)
  }

  /** The operation had its effect on the state and on the lives. */
  ghost predicate Happened(cfg: Config, o: Op, now: nat, s: Snapshot, s': Snapshot, answer: bool, h: map<Ptr, Life>,
                           h': map<Ptr, Life>) {
    && Sane(cfg) && Effect(cfg, o, now, s, s', answer) && Recorded(cfg, o, now, s, s', answer, h, h')
  }

  lemma GrowTook(h: map<Ptr, Life>, ps: set<Ptr>, born: nat, steps: map<Ptr, Input>, cached: map<Ptr, Timed>,
                 tried: map<Ptr, Asked> := map[])
    ensures var h' := Grow(h, ps, born, steps, cached, tried);
      h'.Keys == ps && forall p :: p in h' ==> Took(h, h', p, born, More(steps, p), More(cached, p), More(tried, p))
  {
  }

  /** Every entry has a life that explains its state, and its statistics. */
  ghost predicate Chronicled(cfg: Config, x: Table, trace: seq<Event>, now: nat, h: map<Ptr, Life>) {
    Told(cfg, x, trace, now, h) && Tallied(cfg, x, h)
  }

  /** Nobody asked for anything. */
  ghost predicate Unasked(h: map<Ptr, Life>, h': map<Ptr, Life>) {
    forall p :: p in h' ==> h'[p].tries == if p in h then h[p].tries else []
  }

  lemma TookUnasked(h: map<Ptr, Life>, h': map<Ptr, Life>, p: Ptr, before: nat, ins: seq<Input>, cache: seq<Timed>)
    requires p in h' && Took(h, h', p, before, ins, cache)
    ensures h'[p].tries == if p in h then h[p].tries else []
  {
    if p in h { assert h[p].tries + [] == h[p].tries; }
  }

  lemma TallyUnasked(cfg: Config, x: Table, y: Table, h: map<Ptr, Life>, h': map<Ptr, Life>)
    requires Tallied(cfg, x, h) && StatsKept(x, y) && h'.Keys == y.info.Keys && Unasked(h, h')
    ensures Tallied(cfg, y, h')
  {
    NobodyTries(cfg, x, y);
    forall p | p in h'
      ensures h'[p].tries == (if p in h then h[p].tries else []) + More(map[], p)
    {
      assert h'[p].tries + [] == h'[p].tries;
    }
    TallyGoesOn(cfg, x, y, h, h', map[]);
  }

  /** The lives after what happened to the entries at once. */
  lemma GrowsOn(cfg: Config, x: Table, y: Table, trace: seq<Event>, events: seq<Event>, from: nat, to: nat, h: map<Ptr,
                Life>,
                steps: map<Ptr, Input>, cached: map<Ptr, Timed>, tried: map<Ptr, Asked>)
    requires Chronicled(cfg, x, trace, from, h) && from <= to
    requires AllMoved(cfg, x, y, events, from, to, steps, cached) && AllTried(cfg, x, y, tried)
    ensures var h' := Grow(h, y.info.Keys, |trace|, steps, cached, tried);
      && Chronicled(cfg, y, trace + events, to, h')
      && forall p :: p in h' ==> Took(h, h', p, |trace|, More(steps, p), More(cached, p), More(tried, p))
  {
    hide Told, Tallied, AllMoved, AllTried;
    LivesGoOn(cfg, x, y, trace, events, from, to, h, steps, cached, tried);
    GrowTook(h, y.info.Keys, |trace|, steps, cached, tried);
    TallyGoesOn(cfg, x, y, h, Grow(h, y.info.Keys, |trace|, steps, cached, tried), tried);
  }

  /** The lives after an operation that moves no machine and no cache. */
  ghost function Still(h: map<Ptr, Life>, y: Table, born: nat): map<Ptr, Life> {
    Grow(h, y.info.Keys, born, map[], map[])
  }

  /** Machines, caches and statistics of all entries of `y` are as in `x`, or blank. */
  ghost predicate Undisturbed(x: Table, y: Table) {
    && (forall p :: p in y.info ==> y.info[p].roam == RoamOf(x, p) && y.info[p].hearing.reports == ReportsOf(x, p))
    && StatsKept(x, y)
  }

  lemma StillTold(cfg: Config, x: Table, y: Table, trace: seq<Event>, from: nat, now: nat, h: map<Ptr, Life>)
    requires Chronicled(cfg, x, trace, from, h) && from <= now && Undisturbed(x, y)
    ensures Chronicled(cfg, y, trace, now, Still(h, y, |trace|)) && Unmoved(h, Still(h, y, |trace|), |trace|)
  {
    hide Chronicled, StatsKept, AllMoved, AllTried, Grow;
    NothingMoves(cfg, x, y, [], from, now);
    NobodyTries(cfg, x, y);
    GrowsOn(cfg, x, y, trace, [], from, now, h, map[], map[], map[]);
    assert trace + [] == trace;
  }

  /** Of the entries of `x` these are left, as they were. */
  ghost predicate SomeLeft(x: Table, y: Table) {
    forall p :: p in y.info ==> p in x.info && y.info[p] == x.info[p]
  }

  lemma DeletingLeaves(x: Table, y: Table, dead: set<Ptr>)
    requires y.info == Delete(x, dead).info
    ensures SomeLeft(x, y)
  {
  }

  lemma KeptLeaves(x: Table, y: Table, nodes: set<NodeId>)
    requires KeptWithNodes(x, y, nodes)
    ensures SomeLeft(x, y)
  {
  }

  lemma LeftTold(cfg: Config, x: Table, y: Table, trace: seq<Event>, from: nat, now: nat, h: map<Ptr, Life>)
    requires Chronicled(cfg, x, trace, from, h) && from <= now && SomeLeft(x, y)
    ensures Chronicled(cfg, y, trace, now, Still(h, y, |trace|)) && Unmoved(h, Still(h, y, |trace|), |trace|)
  {
    hide Told, Tallied;
    StillTold(cfg, x, y, trace, from, now, h);
  }

  /** The request in the entry's statistics. */
  lemma FrameTried(cfg: Config, x: Table, y: Table, p: Ptr, node: NodeId, addr: Addr, freq: int, signal: int,
                   kind: EventType,
                   t: Try, ok: bool)
    requires p in y.info && FrameTaken(cfg, t.at, signal, kind, Former(x, p, node, addr, freq, t.at), y.info[p], t, ok)
    requires forall q :: q in x.info && q != p ==> q in y.info && y.info[q] == x.info[q]
    requires forall q :: q in y.info && q !in x.info && q != p ==> Blank(y.info[q])
    ensures AllTried(cfg, x, y, Only(p, Asked(kind, t)))
    ensures y.info[p].roam == RoamOf(x, p).(scanDone := t.at) && y.info[p].hearing.reports == ReportsOf(x, p)
  {
    hide Answer;
    assert forall k :: Former(x, p, node, addr, freq, t.at).StatsOf(k) == StatsIn(x, p, k);
  }

  lemma FrameIsTold(cfg: Config, node: NodeId, addr: Addr, kind: EventType, signal: int, now: nat, s: Snapshot, s': Snapshot,
                    answer: bool, p: Ptr, mid: Table, h: map<Ptr, Life>)
    returns (h': map<Ptr, Life>)
    requires FrameDone(cfg, node, addr, kind, signal, now, s, s', answer, p, mid)
    requires Chronicled(cfg, s.table, s.trace, s.clock, h) && s.clock <= now
    ensures Chronicled(cfg, s'.table, s'.trace, now, h')
    ensures FrameTook(p, kind, Try(now, Refuses(WorldOf(cfg, s'), mid, p, kind)), |s.trace|, h, h')
  {
    hide Told, Tallied, AllMoved, AllTried, FrameTaken, Refuses, Former, Known, Indexed;
    var t := Try(now, Refuses(WorldOf(cfg, s'), mid, p, kind));
    FrameTried(cfg, s.table, s'.table, p, node, addr, s.nodes[node].freq, signal, kind, t, answer);
    h' := LivesAfterFrame(cfg, s.table, s'.table, p, kind, t, s.trace, s.clock, h);
  }

  lemma LivesAfterFrame(cfg: Config, x: Table, y: Table, p: Ptr, kind: EventType, t: Try, trace: seq<Event>, from: nat,
                        h: map<Ptr, Life>)
    returns (h': map<Ptr, Life>)
    requires Chronicled(cfg, x, trace, from, h) && from <= t.at && p in y.info
    requires y.info[p].roam == RoamOf(x, p).(scanDone := t.at) && y.info[p].hearing.reports == ReportsOf(x, p)
    requires forall q :: q in x.info && q != p ==> q in y.info && y.info[q] == x.info[q]
    requires forall q :: q in y.info && q !in x.info && q != p ==> Blank(y.info[q])
    requires AllTried(cfg, x, y, Only(p, Asked(kind, t)))
    ensures Chronicled(cfg, y, trace, t.at, h') && FrameTook(p, kind, t, |trace|, h, h')
  {
    hide Chronicled, AllMoved, AllTried, Grow;
    var (steps, tried) := (Only(p, Roam.Heard(t.at)), Only(p, Asked(kind, t)));
    FrameMoves(cfg, x, y, p, from, t.at);
    h' := Grow(h, y.info.Keys, |trace|, steps, map[], tried);
    GrowsOn(cfg, x, y, trace, [], from, t.at, h, steps, map[], tried);
    assert trace + [] == trace;
  }

  lemma ReportIsTold(cfg: Config, x: Table, y: Table, br: Report, trace: seq<Event>, from: nat, now: nat, h: map<Ptr, Life>)
    returns (h': map<Ptr, Life>)
    requires Chronicled(cfg, x, trace, from, h) && from <= now && br.time == now && ReportTaken(cfg, now, br, x, y)
    ensures Chronicled(cfg, y, trace, now, h')
    ensures forall p :: p in h' ==> Took(h, h', p, |trace|, [], if p == br.owner then [Timed(now, Accept(br))] else [])
  {
    hide Chronicled, AllMoved, AllTried, Keep, Grow;
    var (p, cached) := (br.owner, Only(br.owner, Timed(now, Accept(br))));
    BeaconMoves(cfg, x, p, y.info[p].hearing, br, from, now);
    NobodyTries(cfg, x, y);
    h' := Grow(h, y.info.Keys, |trace|, map[], cached, map[]);
    GrowsOn(cfg, x, y, trace, [], from, now, h, map[], cached, map[]);
    assert trace + [] == trace;
  }

  lemma PollIsTold(cfg: Config, ln: NodeId, x: Table, y: Table, trace: seq<Event>, asked: seq<Event>, now: nat, h: map<Ptr,
                   Life>)
    returns (h': map<Ptr, Life>)
    requires Chronicled(cfg, x, trace, now, h) && Leaves(cfg, now, x, y) && OnlyAsks(asked, y, ln)
    ensures Chronicled(cfg, y, trace + asked, now, h')
    ensures forall p :: p in h' ==> Took(h, h', p, |trace|, [], []) || Took(h, h', p, |trace|, [], [Timed(now,
                                                                                                          CacheOp.Sweep)])
  {
    hide Chronicled, AllMoved, AllTried, Leaves, OnlyAsks, StatsKept, Grow;
    PollMoves(cfg, x, y, asked, ln, now);
    PollKeepsStats(cfg, x, y, now);
    NobodyTries(cfg, x, y);
    h' := Grow(h, y.info.Keys, |trace|, map[], Sweeps(x, y, now), map[]);
    GrowsOn(cfg, x, y, trace, asked, now, now, h, map[], Sweeps(x, y, now), map[]);
  }

  /** The lives after each pass of a tick. */
  ghost function AfterPass(h: map<Ptr, Life>, y: Table, born: nat, steps: map<Ptr, Input>): map<Ptr, Life> {
    Grow(h, y.info.Keys, born, steps, map[])
  }

  lemma TookTwice(h1: map<Ptr, Life>, h2: map<Ptr, Life>, h3: map<Ptr, Life>, p: Ptr, before: nat, mid: nat,
                  ins: seq<Input>, ins': seq<Input>)
    requires before <= mid && p in h3 && (p in h1 ==> p in h2)
    requires (p in h2 ==> Took(h1, h2, p, before, ins, [])) && Took(h2, h3, p, mid, ins', [])
    requires p !in h2 ==> ins == []
    ensures Took(h1, h3, p, before, ins + ins', [])
  {
    if p in h1 {
      assert (h1[p].ins + ins) + ins' == h1[p].ins + (ins + ins');
      assert (h1[p].cache + []) + [] == h1[p].cache + [] && (h1[p].tries + []) + [] == h1[p].tries + [];
    } else if p !in h2 {
      assert ins + ins' == ins';
    }
  }

  lemma StepsAreThere(w: World, ln: NodeId, x: Table, y: Table, counts: map<NodeId, nat>, counts': map<NodeId, nat>,
                      t: Passes)
    requires Ticked(w, ln, x, y, counts, counts', t)
    ensures t.n <= |x.lists[ln]| && x.info.Keys <= t.roamed.info.Keys <= t.weeded.info.Keys <= y.info.Keys
    ensures Exams(w, ln, x, t.n).Keys <= x.info.Keys
    ensures KickedAt(t.k2, w.now).Keys <= t.roamed.info.Keys && KickedAt(t.k3, w.now).Keys <= t.weeded.info.Keys
  {
    hide Indexed, Known, Look, Looked, PassEvents, BestOf;
  }

  lemma ToldKeys(cfg: Config, x: Table, trace: seq<Event>, now: nat, h: map<Ptr, Life>)
    requires Told(cfg, x, trace, now, h)
    ensures h.Keys == x.info.Keys
  {
  }

  /** One pass: each entry there afterwards took what the pass put in. */
  ghost predicate PassTook(h: map<Ptr, Life>, h': map<Ptr, Life>, before: nat, steps: map<Ptr, Input>) {
    h.Keys <= h'.Keys && forall p :: p in h' ==> Took(h, h', p, before, More(steps, p), [])
  }

  lemma PassIsTold(cfg: Config, x: Table, y: Table, trace: seq<Event>, events: seq<Event>, from: nat, to: nat,
                   h: map<Ptr, Life>, steps: map<Ptr, Input>)
    requires Told(cfg, x, trace, from, h) && from <= to && x.info.Keys <= y.info.Keys
    requires AllMoved(cfg, x, y, events, from, to, steps, map[])
    ensures Told(cfg, y, trace + events, to, AfterPass(h, y, |trace|, steps))
    ensures PassTook(h, AfterPass(h, y, |trace|, steps), |trace|, steps)
  {
    LivesGoOn(cfg, x, y, trace, events, from, to, h, steps, map[]);
    GrowTook(h, y.info.Keys, |trace|, steps, map[]);
    ToldKeys(cfg, x, trace, from, h);
    hide Told, AllMoved, Took;
  }

  /** Three passes in a row. */
  lemma PassesTook(h: map<Ptr, Life>, h1: map<Ptr, Life>, h2: map<Ptr, Life>, h3: map<Ptr, Life>, b1: nat, b2: nat, b3: nat,
                   s1: map<Ptr, Input>, s2: map<Ptr, Input>, s3: map<Ptr, Input>, p: Ptr)
    requires b1 <= b2 <= b3 && PassTook(h, h1, b1, s1) && PassTook(h1, h2, b2, s2) && PassTook(h2, h3, b3, s3)
    requires s1.Keys <= h1.Keys && s2.Keys <= h2.Keys && p in h3
    ensures Took(h, h3, p, b1, More(s1, p) + More(s2, p) + More(s3, p), [])
  {
    hide Took;
    if p in h2 {
      TookTwice(h, h1, h2, p, b1, b2, More(s1, p), More(s2, p));
    }
    TookTwice(h, h2, h3, p, b1, b3, More(s1, p) + More(s2, p), More(s3, p));
  }

  lemma TickIsTold(w: World, ln: NodeId, x: Table, y: Table, counts: map<NodeId, nat>, counts': map<NodeId, nat>, t: Passes,
                   trace: seq<Event>, from: nat, h: map<Ptr, Life>)
    returns (h': map<Ptr, Life>)
    requires Ticked(w, ln, x, y, counts, counts', t) && Chronicled(w.cfg, x, trace, from, h) && from <= w.now
    ensures Chronicled(w.cfg, y, trace + TickEvents(t), w.now, h')
    ensures TickTook(w, ln, x, t, |trace|, h, h')
  {
    TickKeepsStats(w, ln, x, y, counts, counts', t);
    hide Told, Tallied, StatsKept, AllMoved, Serving, Roamed, Weeded, Unloaded, Exams, KickedAt, Reported, AfterPass,
      PassTook, Took, More;
    RoamMoves(w, ln, x, t.roamed, t.n, t.k1, t.told, from);
    SignalPassMoves(w, ln, t.roamed, t.weeded, t.k2);
    LoadPassMoves(w, ln, t.weeded, y, counts, counts', t.k3);
    StepsAreThere(w, ln, x, y, counts, counts', t);
    h' := MovesAreTold(w.cfg, x, t.roamed, t.weeded, y, trace, t.told, Reported(t.k2), Reported(t.k3), from, w.now, h,
                       Exams(w, ln, x, t.n), KickedAt(t.k2, w.now), KickedAt(t.k3, w.now));
    ToldKeys(w.cfg, y, trace + TickEvents(t), w.now, h');
    forall p | p in h'
      ensures h'[p].tries == if p in h then h[p].tries else []
    {
      TookUnasked(h, h', p, |trace|, TickInputs(w, ln, x, t, p), []);
    }
    TallyUnasked(w.cfg, x, y, h, h');
  }

  /** No pass touches the statistics. */
  lemma TickKeepsStats(w: World, ln: NodeId, x: Table, y: Table, counts: map<NodeId, nat>, counts': map<NodeId, nat>,
                       t: Passes)
    requires Ticked(w, ln, x, y, counts, counts', t)
    ensures StatsKept(x, y)
  {
    hide Serving, Roamed, Weeded, Unloaded, StatsKept;
    StepsAreThere(w, ln, x, y, counts, counts', t);
    RoamKeepsStats(w, ln, x, t.roamed, t.n, t.k1, t.told);
    SignalKeepsStats(w, ln, t.roamed, t.weeded, t.k2);
    LoadKeepsStats(w, ln, t.weeded, y, counts, counts', t.k3);
    StatsKeptTwice(x, t.roamed, t.weeded);
    StatsKeptTwice(x, t.weeded, y);
  }

  lemma StatsKeptTwice(x: Table, y: Table, z: Table)
    requires StatsKept(x, y) && StatsKept(y, z) && x.info.Keys <= y.info.Keys
    ensures StatsKept(x, z)
  {
  }

  lemma RoamKeepsStats(w: World, ln: NodeId, x: Table, y: Table, n: nat, kicked: Option<Ptr>, told: seq<Event>)
    requires Serving(w, ln, x) && Roamed(w, ln, x, y, n, kicked, told)
    ensures StatsKept(x, y)
  {
    hide Known, Indexed, Look, PassEvents;
    forall p | p in x.info && p in y.info && RoamScanSnr(w.cfg) != 0
      ensures y.info[p].probe == x.info[p].probe && y.info[p].assoc == x.info[p].assoc && y.info[p].auth == x.info[p].auth
    {
      if p in x.lists[ln][..n] {
        var j :| 0 <= j < n && x.lists[ln][j] == p;
      }
    }
  }

  lemma SignalKeepsStats(w: World, ln: NodeId, x: Table, y: Table, kicked: Option<Ptr>)
    requires Serving(w, ln, x) && Weeded(w, ln, x, y, kicked)
    ensures StatsKept(x, y)
  {
    hide Known, Indexed;
  }

  lemma LoadKeepsStats(w: World, ln: NodeId, x: Table, y: Table, counts: map<NodeId, nat>, counts': map<NodeId, nat>,
                       kick: Option<Ptr>)
    requires Serving(w, ln, x) && ln in counts && Unloaded(w, ln, x, y, counts, counts', kick)
    ensures StatsKept(x, y)
  {
    hide Known, Indexed, BestOf, Search;
  }

  lemma MovesAreTold(cfg: Config, x: Table, y: Table, z: Table, u: Table, trace: seq<Event>, e1: seq<Event>,
                     e2: seq<Event>, e3: seq<Event>,
                     from: nat, now: nat, h: map<Ptr, Life>, s1: map<Ptr, Input>, s2: map<Ptr, Input>, s3: map<Ptr, Input>)
    returns (h': map<Ptr, Life>)
    requires Told(cfg, x, trace, from, h) && from <= now && x.info.Keys <= y.info.Keys <= z.info.Keys <= u.info.Keys
    requires AllMoved(cfg, x, y, e1, from, now, s1, map[]) && AllMoved(cfg, y, z, e2, now, now, s2, map[])
    requires AllMoved(cfg, z, u, e3, now, now, s3, map[])
    requires s1.Keys <= y.info.Keys && s2.Keys <= z.info.Keys
    ensures Told(cfg, u, trace + (e1 + e2 + e3), now, h')
    ensures forall p :: p in h' ==> Took(h, h', p, |trace|, More(s1, p) + More(s2, p) + More(s3, p), [])
  {
    hide Told, AllMoved, AfterPass, PassTook, Took, More;
    var (t1, t2) := (trace + e1, trace + e1 + e2);
    var h1 := AfterPass(h, y, |trace|, s1);
    PassIsTold(cfg, x, y, trace, e1, from, now, h, s1);
    ToldKeys(cfg, y, t1, now, h1);
    var h2 := AfterPass(h1, z, |t1|, s2);
    PassIsTold(cfg, y, z, t1, e2, now, now, h1, s2);
    ToldKeys(cfg, z, t2, now, h2);
    h' := AfterPass(h2, u, |t2|, s3);
    PassIsTold(cfg, z, u, t2, e3, now, now, h2, s3);
    assert t2 + e3 == trace + (e1 + e2 + e3);
    forall p | p in h'
      ensures Took(h, h', p, |trace|, More(s1, p) + More(s2, p) + More(s3, p), [])
    {
      PassesTook(h, h1, h2, h', |trace|, |t1|, |t2|, s1, s2, s3, p);
    }
  }

  // ---------------------------------------------------------------- one operation

  /** The lives explain the state. */
  ghost predicate Explained(cfg: Config, s: Snapshot, h: map<Ptr, Life>) {
    Chronicled(cfg, s.table, s.trace, s.clock, h)
  }

  lemma NothingHappened(cfg: Config, o: Op, now: nat, s: Snapshot, h: map<Ptr, Life>)
    requires Sane(cfg) && Ignored(o, s)
    ensures forall answer :: Happened(cfg, o, now, s, s, answer, h, h)
  {
  }

  lemma FrameHappened(cfg: Config, o: Op, now: nat, s: Snapshot, s': Snapshot, answer: bool, p: Ptr, mid: Table,
                      h: map<Ptr, Life>)
    returns (h': map<Ptr, Life>)
    requires o.Frame? && !Ignored(o, s) && Sane(cfg) && Explained(cfg, s, h) && s.clock <= now
    requires FrameDone(cfg, o.node, o.addr, o.kind, o.signal, now, s, s', answer, p, mid)
    ensures Happened(cfg, o, now, s, s', answer, h, h') && Explained(cfg, s', h')
  {
    hide Chronicled, FrameTaken, Refuses, Former, Known, Indexed, FrameTook, MadeAtMost, Blank;
    h' := FrameIsTold(cfg, o.node, o.addr, o.kind, o.signal, now, s, s', answer, p, mid, h);
  }

  lemma BeaconHappened(cfg: Config, o: Op, now: nat, s: Snapshot, s': Snapshot, h: map<Ptr, Life>) returns (h': map<Ptr,
                       Life>)
    requires o.Beacon? && !Ignored(o, s) && Sane(cfg) && Explained(cfg, s, h) && s.clock <= now
    requires BeaconDone(cfg, o, now, s, s') && Indexed(s.table)
    ensures Happened(cfg, o, now, s, s', false, h, h') && Explained(cfg, s', h')
  {
    hide Chronicled, Indexed, Took, KnownBssid, ReportTaken;
    if (exists p :: IsEntry(s.table, p, o.node, o.addr)) && KnownBssid(WorldOf(cfg, s), o.bssid) {
      var p :| IsEntry(s.table, p, o.node, o.addr)
            && ReportTaken(cfg, now, Report(p, o.bssid, o.rcpi, o.rsni, o.opClass, o.channel, now), s.table, s'.table);
      OnlyItsEntry(s.table, p, o.node, o.addr);
      h' := ReportIsTold(cfg, s.table, s'.table, Report(p, o.bssid, o.rcpi, o.rsni, o.opClass, o.channel, now), s.trace,
                         s.clock, now, h);
    } else {
      h' := Still(h, s'.table, |s.trace|);
      LeftTold(cfg, s.table, s'.table, s.trace, s.clock, now, h);
    }
  }

  lemma OnlyItsEntry(x: Table, p: Ptr, node: NodeId, addr: Addr)
    requires Indexed(x) && IsEntry(x, p, node, addr)
    ensures forall q :: IsEntry(x, q, node, addr) ==> q == p
  {
    hide Indexed;
    forall q | IsEntry(x, q, node, addr)
      ensures q == p
    {
      if q != p { OneStationEach(x, p, q); }
    }
  }

  lemma PollHappened(cfg: Config, o: Op, now: nat, s: Snapshot, s': Snapshot, h: map<Ptr, Life>) returns (h': map<Ptr, Life>)
    requires o.Clients? && !Ignored(o, s) && Sane(cfg) && Explained(cfg, s, h)
    requires ClientsDone(cfg, o.node, o.freq, o.clients, now, s, s') && Leaves(cfg, s.clock, s.table, s'.table)
    ensures Happened(cfg, o, now, s, s', false, h, h') && Explained(cfg, s', h')
  {
    hide Chronicled, Took, Leaves, OnlyAsks, PollKeeps, PollConnects, PollOutcome, PollWrites, PollAsks;
    var asked := s'.trace[|s.trace|..];
    assert s'.trace == s.trace + asked;
    h' := PollIsTold(cfg, o.node, s.table, s'.table, s.trace, asked, s.clock, h);
  }

  lemma TickHappened(cfg: Config, o: Op, now: nat, s: Snapshot, s': Snapshot, t: Passes, h: map<Ptr, Life>)
    returns (h': map<Ptr, Life>)
    requires o.KickTick? && !Ignored(o, s) && Sane(cfg) && Explained(cfg, s, h) && s.clock <= now
    requires TickDone(cfg, o.node, now, s, s', t)
    ensures Happened(cfg, o, now, s, s', false, h, h') && Explained(cfg, s', h')
  {
    hide Chronicled, Ticked, TickTook, KicksOf, TickEvents, IdleClient;
    h' := TickIsTold(WorldOf(cfg, s'), o.node, s.table, s'.table, s.counts, s'.counts, t, s.trace, s.clock, h);
  }

  lemma MessageHappened(cfg: Config, o: Op, now: nat, s: Snapshot, s': Snapshot, h: map<Ptr, Life>) returns (h': map<Ptr,
                        Life>)
    requires o.NodeMessage? && !Ignored(o, s) && Sane(cfg) && Explained(cfg, s, h) && MessageDone(o, now, s, s')
    ensures Happened(cfg, o, now, s, s', false, h, h') && Explained(cfg, s', h')
  {
    hide Chronicled, StationsTaken, Undisturbed, Unmoved, Still;
    StationsAreQuiet(s.clock, now, o.node, o.attributes.freq, o.stations, s.table, s'.table, s.timers, s'.timers);
    h' := Still(h, s'.table, |s.trace|);
    StillTold(cfg, s.table, s'.table, s.trace, s.clock, s.clock, h);
  }

  /** What an access point tells about its stations moves nothing here. */
  lemma StationsAreQuiet(clock: nat, now: nat, node: NodeId, freq: int, msgs: seq<StaMsg>, x: Table, y: Table,
                         before: map<Ptr, Stamp>, after: map<Ptr, Stamp>)
    requires StationsTaken(clock, now, node, freq, msgs, x, y, before, after)
    ensures Undisturbed(x, y)
  {
    hide LastWord;
    forall p | p in y.info
      ensures y.info[p].roam == RoamOf(x, p) && y.info[p].hearing.reports == ReportsOf(x, p)
      ensures y.info[p].probe == StatsIn(x, p, Probe) && y.info[p].assoc == StatsIn(x, p, Assoc)
      ensures y.info[p].auth == StatsIn(x, p, Auth)
    {
      assert EntryTaken(clock, now, node, freq, msgs, x, y, before, after, p);
    }
  }

  /** Nodes that age, change, come or go, and timers: entries may go, and those left are as they were. */
  lemma OthersHappened(cfg: Config, o: Op, now: nat, s: Snapshot, s': Snapshot, h: map<Ptr, Life>) returns (h': map<Ptr,
                       Life>)
    requires o.UpdateTick? || o.LocalInfo? || o.LocalUp? || o.LocalDown? || o.Timers?
    requires !Ignored(o, s) && Sane(cfg) && Explained(cfg, s, h) && Effect(cfg, o, now, s, s', false)
    requires o.UpdateTick? ==> s.clock <= now
    ensures Happened(cfg, o, now, s, s', false, h, h') && Explained(cfg, s', h')
  {
    OthersLeave(cfg, o, now, s, s');
    hide Chronicled, Effect, Unmoved, Still, SomeLeft;
    h' := Still(h, s'.table, |s.trace|);
    LeftTold(cfg, s.table, s'.table, s.trace, s.clock, s'.clock, h);
  }

  lemma OthersLeave(cfg: Config, o: Op, now: nat, s: Snapshot, s': Snapshot)
    requires o.UpdateTick? || o.LocalInfo? || o.LocalUp? || o.LocalDown? || o.Timers?
    requires !Ignored(o, s) && Sane(cfg) && Effect(cfg, o, now, s, s', false)
    ensures SomeLeft(s.table, s'.table) && s'.trace == s.trace && s'.clock == if o.UpdateTick? then now else s.clock
  {
    hide Aged, TimersLeft, Minus, Before, Unseen;
  }
}
