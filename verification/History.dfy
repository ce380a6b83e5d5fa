/**
  What the tables and the messages to hostapd owe to the machines of the single
  clients.  Each entry has a life: the inputs of its roam machine, the
  operations on its report cache and the requests of its client, in order.
 */
module History {
  import opened Types
  import opened Lists
  import opened HearingMap
  import opened Roam
  import opened Steering
  import opened Stations
  import opened Candidates
  import opened Kicking
  import opened Blocking
  import opened Registry
  import opened Policy
  import opened Poll

  /** `born` is how much hostapd had been told when the entry was made. */
  datatype Life = Life(born: nat, ins: seq<Input>, cache: seq<Timed>, tries: seq<Asked>)

  /** A request, and whether the policy would refuse it. */
  datatype Asked = Asked(kind: EventType, t: Try)

  /** What hostapd is told about a client when its machine takes an input. */
  function Voice(p: Ptr, i: Input, act: Act): seq<Event> {
    if i.OtherKick? then [Kicked(p)] else Emits(p, act)
  }

  function Said(cfg: Config, p: Ptr, ins: seq<Input>): seq<Event> {
    if ins == [] then []
    else
      var n := |ins| - 1;
      Said(cfg, p, ins[..n]) + Voice(p, ins[n], ActOf(cfg, ins, n))
  }

  /** The messages about a client that the roam machine and the kick passes send. */
  function About(p: Ptr, events: seq<Event>): seq<Event> {
    if events == [] then []
    else
      var e := events[|events| - 1];
      About(p, events[..|events| - 1]) + if !e.BeaconRequested? && e.p == p then [e] else []
  }

  lemma {:induction false} AboutConcat(p: Ptr, s: seq<Event>, t: seq<Event>)
    ensures About(p, s + t) == About(p, s) + About(p, t)
  {
    if t == [] {
      assert s + t == s;
    } else {
      assert (s + t)[..|s + t| - 1] == s + t[..|t| - 1];
      AboutConcat(p, s, t[..|t| - 1]);
    }
  }

  /** The life explains the state of the machine and of the cache, and all that was said since its beginning. */
  ghost predicate Explains(cfg: Config, p: Ptr, roam: Roaming, reports: seq<Report>, trace: seq<Event>, now: nat, l: Life) {
    && InTime(l.ins) && (forall i :: i in l.ins ==> i.at <= now)
    && StateAfter(cfg, l.ins) == roam
    && l.born <= |trace| && About(p, trace[l.born..]) == Said(cfg, p, l.ins)
    && InOrder(l.cache) && (forall o :: o in l.cache ==> o.at <= now)
    && Replay(cfg, l.cache) == reports
  }

  /** Every entry has a life that explains it. */
  ghost predicate Told(cfg: Config, x: Table, trace: seq<Event>, now: nat, h: map<Ptr, Life>) {
    && h.Keys == x.info.Keys
    && forall p :: p in x.info ==> Explains(cfg, p, RoamOf(x, p), ReportsOf(x, p), trace, now, h[p])
  }

  // ---------------------------------------------------------------- lives go on

  /** The entry took the inputs `step` and the cache operations `cached`, at most one of each. */
  ghost predicate Moved(cfg: Config, p: Ptr, roam: Roaming, reports: seq<Report>, si: StaInfo, events: seq<Event>,
                        from: nat, to: nat, step: seq<Input>, cached: seq<Timed>) {
    && (if step == [] then si.roam == roam && About(p, events) == []
        else
          && |step| == 1 && from <= step[0].at <= to
          && var (roam', act) := Next(cfg, roam, step[0]);
             si.roam == roam' && About(p, events) == Voice(p, step[0], act))
    && (if cached == [] then si.hearing.reports == reports
        else
          && |cached| == 1 && from <= cached[0].at <= to
          && (cached[0].op.Accept? ==> cached[0].op.br.time == cached[0].at)
          && si.hearing.reports == Apply(cfg, reports, cached[0]))
  }

  lemma {:induction false} InputsGoOn(cfg: Config, ins: seq<Input>, i: Input, now: nat)
    requires InTime(ins) && (forall i :: i in ins ==> i.at <= now) && now <= i.at
    ensures InTime(ins + [i])
    ensures StateAfter(cfg, ins + [i]) == Next(cfg, StateAfter(cfg, ins), i).0
    ensures forall p :: Said(cfg, p, ins + [i]) == Said(cfg, p, ins) + Voice(p, i, Next(cfg, StateAfter(cfg, ins), i).1)
  {
    hide Next;
    assert (ins + [i])[..|ins|] == ins;
  }

  lemma {:induction false} CacheGoesOn(cfg: Config, cache: seq<Timed>, o: Timed, now: nat)
    requires InOrder(cache) && (forall o :: o in cache ==> o.at <= now) && now <= o.at
    requires o.op.Accept? ==> o.op.br.time == o.at
    ensures InOrder(cache + [o]) && Replay(cfg, cache + [o]) == Apply(cfg, Replay(cfg, cache), o)
  {
    hide Apply;
    assert (cache + [o])[..|cache|] == cache;
  }

  lemma {:induction false} LifeGoesOn(cfg: Config, p: Ptr, roam: Roaming, reports: seq<Report>, si: StaInfo,
                                      trace: seq<Event>, events: seq<Event>,
                                      from: nat, to: nat, l: Life, step: seq<Input>, cached: seq<Timed>,
                                      tries: seq<Asked>)
    requires Explains(cfg, p, roam, reports, trace, from, l) && from <= to
    requires Moved(cfg, p, roam, reports, si, events, from, to, step, cached)
    ensures Explains(cfg, p, si.roam, si.hearing.reports, trace + events, to,
                     Life(l.born, l.ins + step, l.cache + cached, tries))
  {
    hide Next, Apply, InTime, InOrder, StateAfter, Replay, Said, About, Voice;
    assert (trace + events)[l.born..] == trace[l.born..] + events;
    AboutConcat(p, trace[l.born..], events);
    if step == [] {
      assert l.ins + step == l.ins && Said(cfg, p, l.ins) + [] == Said(cfg, p, l.ins);
    } else {
      assert step == [step[0]];
      InputsGoOn(cfg, l.ins, step[0], from);
    }
    if cached == [] {
      assert l.cache + cached == l.cache;
    } else {
      assert cached == [cached[0]];
      CacheGoesOn(cfg, l.cache, cached[0], from);
    }
  }

  lemma {:induction false} LifeBegins(cfg: Config, p: Ptr, trace: seq<Event>, now: nat)
    ensures Explains(cfg, p, INITIAL, [], trace, now, Life(|trace|, [], [], []))
  {
    assert trace[|trace|..] == [];
  }

  /** What happened to one entry only. */
  ghost function Only<T>(p: Ptr, a: T): (m: map<Ptr, T>)
    ensures m.Keys == {p} && m[p] == a
  {
    map[p := a]
  }

  function More<T>(m: map<Ptr, T>, p: Ptr): seq<T> {
    if p in m then [m[p]] else []
  }

  function LifeOf(h: map<Ptr, Life>, p: Ptr, born: nat): Life {
    if p in h then h[p] else Life(born, [], [], [])
  }

  /** The lives of the entries `ps`, those that are new begun at `born`, after one step of some. */
  function Grow(h: map<Ptr, Life>, ps: set<Ptr>, born: nat, steps: map<Ptr, Input>, cached: map<Ptr, Timed>,
                tried: map<Ptr, Asked> := map[]): map<Ptr, Life> {
    map p | p in ps ::
      var l := LifeOf(h, p, born);
      Life(l.born, l.ins + More(steps, p), l.cache + More(cached, p), l.tries + More(tried, p))
  }

  /** Each entry moved from `x` to `y`, or stayed, as the maps say. */
  ghost predicate AllMoved(cfg: Config, x: Table, y: Table, events: seq<Event>, from: nat, to: nat,
                           steps: map<Ptr, Input>, cached: map<Ptr, Timed>) {
    forall p :: p in y.info ==>
      Moved(cfg, p, RoamOf(x, p), ReportsOf(x, p), y.info[p], events, from, to, More(steps, p), More(cached, p))
  }

  lemma {:induction false} LivesGoOn(cfg: Config, x: Table, y: Table, trace: seq<Event>, events: seq<Event>, from: nat,
                                     to: nat, h: map<Ptr, Life>, steps: map<Ptr, Input>, cached: map<Ptr, Timed>,
                                     tried: map<Ptr, Asked> := map[])
    requires Told(cfg, x, trace, from, h) && from <= to
    requires AllMoved(cfg, x, y, events, from, to, steps, cached)
    ensures Told(cfg, y, trace + events, to, Grow(h, y.info.Keys, |trace|, steps, cached, tried))
  {
    hide Explains, AllMoved;
    forall p | p in y.info
      ensures Explains(cfg, p, RoamOf(y, p), ReportsOf(y, p), trace + events, to,
                       Grow(h, y.info.Keys, |trace|, steps, cached, tried)[p])
    {
      OneGoesOn(cfg, x, y, trace, events, from, to, h, steps, cached, tried, p);
    }
  }

  lemma {:induction false} OneGoesOn(cfg: Config, x: Table, y: Table, trace: seq<Event>, events: seq<Event>, from: nat,
                                     to: nat,
                                     h: map<Ptr, Life>, steps: map<Ptr, Input>, cached: map<Ptr, Timed>,
                                     tried: map<Ptr, Asked>, p: Ptr)
    requires Told(cfg, x, trace, from, h) && from <= to && p in y.info
    requires AllMoved(cfg, x, y, events, from, to, steps, cached)
    ensures Explains(cfg, p, RoamOf(y, p), ReportsOf(y, p), trace + events, to,
                     Grow(h, y.info.Keys, |trace|, steps, cached, tried)[p])
  {
    hide Explains, Moved, More;
    LifeBegins(cfg, p, trace, from);
    LifeGoesOn(cfg, p, RoamOf(x, p), ReportsOf(x, p), y.info[p], trace, events, from, to, LifeOf(h, p, |trace|),
               More(steps, p), More(cached, p), LifeOf(h, p, |trace|).tries + More(tried, p));
  }

  /** Nothing happens to the lives of those left, and those that come are blank. */
  lemma {:induction false} NothingMoves(cfg: Config, x: Table, y: Table, events: seq<Event>, from: nat, to: nat)
    requires forall p :: p in y.info ==> y.info[p].roam == RoamOf(x, p) && y.info[p].hearing.reports == ReportsOf(x, p)
    requires forall p :: p in y.info ==> About(p, events) == []
    ensures AllMoved(cfg, x, y, events, from, to, map[], map[])
  {
  }

  // ---------------------------------------------------------------- requests

  /** The requests of one kind. */
  function TriesOf(asked: seq<Asked>, kind: EventType): seq<Try> {
    if asked == [] then []
    else
      var a := asked[|asked| - 1];
      TriesOf(asked[..|asked| - 1], kind) + if a.kind == kind then [a.t] else []
  }

  /** The statistics of every entry are what its requests have made of them, kind by kind. */
  ghost predicate Tallied(cfg: Config, x: Table, h: map<Ptr, Life>) {
    h.Keys == x.info.Keys && forall p, kind :: p in x.info ==>
      StatsIn(x, p, kind) == Blocking.After(cfg, NO_STATS, TriesOf(h[p].tries, kind))
  }

  /** From `x` to `y` the entries took at most one request each. */
  ghost predicate AllTried(cfg: Config, x: Table, y: Table, tried: map<Ptr, Asked>) {
    forall p, kind :: p in y.info ==>
      StatsIn(y, p, kind) ==
        if p in tried && tried[p].kind == kind then Answer(cfg, StatsIn(x, p, kind), tried[p].t).0 else StatsIn(x, p, kind)
  }

  lemma {:induction false} TriesGoOn(cfg: Config, asked: seq<Asked>, a: Asked, kind: EventType)
    ensures TriesOf(asked + [a], kind) == TriesOf(asked, kind) + if a.kind == kind then [a.t] else []
    ensures Blocking.After(cfg, NO_STATS, TriesOf(asked + [a], kind)) ==
      var s := Blocking.After(cfg, NO_STATS, TriesOf(asked, kind));
      if a.kind == kind then Answer(cfg, s, a.t).0 else s
  {
    hide Answer;
    assert (asked + [a])[..|asked|] == asked;
    var ts := TriesOf(asked, kind);
    assert (ts + [a.t])[..|ts|] == ts && ts + [] == ts;
  }

  /** After an operation that gave the entries the requests `tried`. */
  lemma {:induction false} TallyGoesOn(cfg: Config, x: Table, y: Table, h: map<Ptr, Life>, h': map<Ptr, Life>,
                                       tried: map<Ptr, Asked>)
    requires Tallied(cfg, x, h) && AllTried(cfg, x, y, tried) && h'.Keys == y.info.Keys
    requires forall p :: p in h' ==> h'[p].tries == (if p in h then h[p].tries else []) + More(tried, p)
    ensures Tallied(cfg, y, h')
  {
    hide Answer;
    forall p, kind | p in y.info
      ensures StatsIn(y, p, kind) == Blocking.After(cfg, NO_STATS, TriesOf(h'[p].tries, kind))
    {
      OneTally(cfg, x, h, p, kind);
      var asked := if p in h then h[p].tries else [];
      if p in tried {
        TriesGoOn(cfg, asked, tried[p], kind);
      } else {
        assert asked + [] == asked;
      }
    }
  }

  lemma {:induction false} OneTally(cfg: Config, x: Table, h: map<Ptr, Life>, p: Ptr, kind: EventType)
    requires Tallied(cfg, x, h)
    ensures StatsIn(x, p, kind) == Blocking.After(cfg, NO_STATS, TriesOf(if p in h then h[p].tries else [], kind))
  {
  }

  /** The retry limit in the daemon: how a request of the client of `p` fares, after all its requests so far. */
  lemma {:induction false} DaemonRetryLimit(cfg: Config, x: Table, h: map<Ptr, Life>, p: Ptr, kind: EventType, t: Try)
    requires Tallied(cfg, x, h) && cfg.maxRetryBand < U32
    ensures var ts := TriesOf(if p in h then h[p].tries else [], kind) + [t];
      Answer(cfg, StatsIn(x, p, kind), t).1 <==> !t.refuse || Row(cfg, ts, |ts| - 1) % (cfg.maxRetryBand + 1) == 0
  {
    OneTally(cfg, x, h, p, kind);
    var front := TriesOf(if p in h then h[p].tries else [], kind);
    var ts := front + [t];
    assert ts[..|ts| - 1] == front;
    RetryLimit(cfg, NO_STATS, ts, |ts| - 1);
  }

  /** And the counters of an entry count its requests and refusals. */
  lemma {:induction false} DaemonCounters(cfg: Config, x: Table, h: map<Ptr, Life>, p: Ptr, kind: EventType)
    requires Tallied(cfg, x, h) && p in x.info
    ensures var ts := TriesOf(h[p].tries, kind);
      && x.info[p].StatsOf(kind).requests == |ts| % U32
      && x.info[p].StatsOf(kind).blockedTotal == Refusals(cfg, NO_STATS, ts) % U32
  {
    OneTally(cfg, x, h, p, kind);
    CountersCount(cfg, TriesOf(h[p].tries, kind));
  }

  // ---------------------------------------------------------------- what the operations do to a life

  /** A frame of the client of `p`: its scan results are fresh. */
  lemma {:induction false} FrameMoves(cfg: Config, x: Table, y: Table, p: Ptr, from: nat, now: nat)
    requires from <= now && p in y.info
    requires y.info[p].roam == RoamOf(x, p).(scanDone := now) && y.info[p].hearing.reports == ReportsOf(x, p)
    requires forall q :: q in x.info && q != p ==> q in y.info && y.info[q] == x.info[q]
    requires forall q :: q in y.info && q !in x.info && q != p ==> Blank(y.info[q])
    ensures AllMoved(cfg, x, y, [], from, now, Only(p, Roam.Heard(now)), map[])
  {
  }

  /** A beacon report taken in for `p`. */
  lemma {:induction false} BeaconMoves(cfg: Config, x: Table, p: Ptr, h: Hearing, br: Report, from: nat, now: nat)
    requires from <= now && p in x.info && br.time == now
    requires h.reports == Inserted(cfg, now, x.info[p].hearing.reports, br)
    ensures AllMoved(cfg, x, x.(info := x.info[p := x.info[p].(hearing := h)]), [], from, now,
                     map[], Only(p, Timed(now, Accept(br))))
  {
  }

  /** The entries whose cache a poll has swept. */
  ghost function Sweeps(x: Table, y: Table, now: nat): map<Ptr, Timed> {
    map p | p in y.info && y.info[p].hearing.reports != ReportsOf(x, p) :: Timed(now, CacheOp.Sweep)
  }

  lemma {:induction false} AsksAreAboutNobody(p: Ptr, events: seq<Event>)
    requires forall e :: e in events ==> e.BeaconRequested?
    ensures About(p, events) == []
  {
    if events != [] {
      AsksAreAboutNobody(p, events[..|events| - 1]);
    }
  }

  lemma {:induction false} PollMoves(cfg: Config, x: Table, y: Table, events: seq<Event>, ln: NodeId, now: nat)
    requires Leaves(cfg, now, x, y) && OnlyAsks(events, y, ln)
    ensures AllMoved(cfg, x, y, events, now, now, map[], Sweeps(x, y, now))
  {
    forall p | p in y.info
      ensures Moved(cfg, p, RoamOf(x, p), ReportsOf(x, p), y.info[p], events, now, now,
                    More(map[], p), More(Sweeps(x, y, now), p))
    {
      AsksAreAboutNobody(p, events);
      assert LeavesEntry(cfg, now, x, p, y.info[p]);
    }
  }

  /** The statistics of all entries are as before. */
  ghost predicate StatsKept(x: Table, y: Table) {
    forall p :: p in y.info ==>
      && y.info[p].probe == StatsIn(x, p, Probe) && y.info[p].assoc == StatsIn(x, p, Assoc)
      && y.info[p].auth == StatsIn(x, p, Auth)
  }

  lemma {:induction false} NobodyTries(cfg: Config, x: Table, y: Table)
    requires StatsKept(x, y)
    ensures AllTried(cfg, x, y, map[])
  {
  }

  lemma {:induction false} PollKeepsStats(cfg: Config, x: Table, y: Table, now: nat)
    requires Leaves(cfg, now, x, y)
    ensures StatsKept(x, y)
  {
    forall p | p in y.info
      ensures LeavesEntry(cfg, now, x, p, y.info[p])
    {
    }
  }

  /** What the roam pass finds when it looks at an entry. */
  function ExamOf(w: World, x: Table, p: Ptr): Input
    requires Known(w, x.info) && Indexed(x) && p in x.info
  {
    var (si, node) := (x.info[p], w.nodes[x.info[p].node]);
    Exam(w.now,
         Kickable(w.cfg, si) && si.signal < SnrToSignal(node, RoamScanSnr(w.cfg)),
         si.signal > SnrToSignal(node, w.cfg.roamTriggerSnr),
         Search(w, x, p) != NotFound)
  }

  /** The first `n` clients of the node are examined. */
  ghost function Exams(w: World, ln: NodeId, x: Table, n: nat): map<Ptr, Input>
    requires Serving(w, ln, x) && n <= |x.lists[ln]|
  {
    map p | p in x.lists[ln][..n] :: ExamOf(w, x, p)
  }

  lemma {:induction false} PassIsAbout(w: World, x: Table, list: seq<Ptr>, n: nat, p: Ptr)
    requires Known(w, x.info) && Indexed(x) && n <= |list| && NoDup(list) && forall p :: p in list ==> p in x.info
    ensures About(p, PassEvents(w, x, list[..n])) == if p in list[..n] then Emits(p, Look(w, x, p).1) else []
  {
    hide Known, Indexed, Look, PassEvents, About, Emits;
    if n == 0 {
      EventsOfNone(w, x, list);
    } else {
      var q := list[n - 1];
      PassIsAbout(w, x, list, n - 1, p);
      EventsOfStep(w, x, list, n - 1);
      AboutConcat(p, PassEvents(w, x, list[..n - 1]), Emits(q, Look(w, x, q).1));
      NextOfList(list, n - 1);
      EmitsIsAbout(p, q, Look(w, x, q).1);
    }
  }

  lemma {:induction false} EventsOfNone(w: World, x: Table, list: seq<Ptr>)
    requires Known(w, x.info) && Indexed(x) && forall p :: p in list ==> p in x.info
    ensures PassEvents(w, x, list[..0]) == [] && forall p :: About(p, PassEvents(w, x, list[..0])) == []
  {
  }

  lemma {:induction false} EmitsIsAbout(p: Ptr, q: Ptr, act: Act)
    ensures About(p, Emits(q, act)) == if p == q then Emits(q, act) else []
  {
    assert About(p, []) == [];
    if act != Nothing {
      assert Emits(q, act)[..0] == [];
    }
  }

  /** The roam pass: each client looked at takes its examination. */
  lemma {:induction false} RoamMoves(w: World, ln: NodeId, x: Table, y: Table, n: nat, kicked: Option<Ptr>,
                                     told: seq<Event>, from: nat)
    requires Serving(w, ln, x) && Roamed(w, ln, x, y, n, kicked, told) && from <= w.now
    ensures AllMoved(w.cfg, x, y, told, from, w.now, Exams(w, ln, x, n), map[])
  {
    hide Moved, Exams, RoamPassed, Known, Indexed, PassEvents;
    forall p | p in y.info
      ensures Moved(w.cfg, p, RoamOf(x, p), ReportsOf(x, p), y.info[p], told, from, w.now,
                    More(Exams(w, ln, x, n), p), More(map[], p))
    {
      RoamMovesOne(w, ln, x, y, n, kicked, told, from, p);
    }
  }

  lemma {:induction false} RoamMovesOne(w: World, ln: NodeId, x: Table, y: Table, n: nat, kicked: Option<Ptr>,
                                        told: seq<Event>, from: nat, p: Ptr)
    requires Serving(w, ln, x) && Roamed(w, ln, x, y, n, kicked, told) && from <= w.now && p in y.info
    ensures Moved(w.cfg, p, RoamOf(x, p), ReportsOf(x, p), y.info[p], told, from, w.now,
                  More(Exams(w, ln, x, n), p), More(map[], p))
  {
    hide Known, Indexed, RoamPassed, Moved, Exams, More, About, Next, Looked, Look, ExamOf, PassEvents;
    RoamedAt(w, ln, x, y, n, kicked, told, p);
    ExamsAt(w, ln, x, n, p);
    if p in x.lists[ln][..n] {
      LookIsExam(w, x, p);
      StepMoved(w.cfg, p, x.info[p].roam, x.info[p].hearing.reports, y.info[p], told, from, w.now, ExamOf(w, x, p));
    } else {
      NotMoved(w.cfg, p, RoamOf(x, p), ReportsOf(x, p), y.info[p], told, from, w.now);
    }
  }

  lemma {:induction false} ExamsAt(w: World, ln: NodeId, x: Table, n: nat, p: Ptr)
    requires Serving(w, ln, x) && n <= |x.lists[ln]|
    ensures More(Exams(w, ln, x, n), p) == if p in x.lists[ln][..n] then [ExamOf(w, x, p)] else []
    ensures More<Timed>(map[], p) == []
  {
    hide ExamOf;
  }

  lemma {:induction false} StepMoved(cfg: Config, p: Ptr, roam: Roaming, reports: seq<Report>, si: StaInfo,
                                     events: seq<Event>, from: nat, to: nat, i: Input)
    requires from <= i.at <= to && si.roam == Next(cfg, roam, i).0 && si.hearing.reports == reports
    requires About(p, events) == Voice(p, i, Next(cfg, roam, i).1)
    ensures Moved(cfg, p, roam, reports, si, events, from, to, [i], [])
  {
    hide Next, Voice, About;
  }

  lemma {:induction false} NotMoved(cfg: Config, p: Ptr, roam: Roaming, reports: seq<Report>, si: StaInfo,
                                    events: seq<Event>, from: nat, to: nat)
    requires si.roam == roam && si.hearing.reports == reports && About(p, events) == []
    ensures Moved(cfg, p, roam, reports, si, events, from, to, [], [])
  {
  }

  /** One entry after the roam pass, and what hostapd was told about it. */
  lemma {:induction false} RoamedAt(w: World, ln: NodeId, x: Table, y: Table, n: nat, kicked: Option<Ptr>,
                                    told: seq<Event>, p: Ptr)
    requires Serving(w, ln, x) && Roamed(w, ln, x, y, n, kicked, told) && p in y.info
    ensures n <= |x.lists[ln]|
    ensures if p in x.lists[ln][..n] then
        && p in x.info && y.info[p] == Looked(w, x, p) && About(p, told) == Emits(p, Look(w, x, p).1)
      else
        && y.info[p].roam == RoamOf(x, p) && y.info[p].hearing.reports == ReportsOf(x, p) && About(p, told) == []
  {
    hide Indexed, Known, Look, Looked, PassEvents, About, Emits;
    NodeMembers(x, ln);
    var list := x.lists[ln];
    PassIsAbout(w, x, list, n, p);
    EventsOfNone(w, x, list);
    if p in list[..n] {
      var j :| 0 <= j < n && list[j] == p;
    }
  }

  lemma {:induction false} LookIsExam(w: World, x: Table, p: Ptr)
    requires Known(w, x.info) && Indexed(x) && p in x.info
    ensures Next(w.cfg, x.info[p].roam, ExamOf(w, x, p)) == Look(w, x, p)
    ensures Looked(w, x, p).roam == Look(w, x, p).0 && Looked(w, x, p).hearing == x.info[p].hearing
    ensures ExamOf(w, x, p).Exam? && ExamOf(w, x, p).at == w.now
  {
  }

  function KickedAt(kick: Option<Ptr>, now: nat): map<Ptr, Input> {
    if kick.Some? then map[kick.value := OtherKick(now)] else map[]
  }

  /** A kick by one of the other passes. */
  ghost predicate KickedOut(x: Table, y: Table, ln: NodeId, kick: Option<Ptr>, now: nat) {
    if kick.None? then Grown(x, y, ln)
    else
      var p := kick.value;
      p in x.info && Grown(x.(info := x.info[p := GoneAndCounted(now, x.info[p])]), y, ln)
  }

  /** The machines and caches after it, for an entry that was there or not. */
  lemma {:induction false} KickedOutAt(x: Table, y: Table, ln: NodeId, kick: Option<Ptr>, now: nat, p: Ptr)
    requires KickedOut(x, y, ln, kick, now) && p in y.info
    ensures y.info[p].roam == if kick == Some(p) then RoamOf(x, p).(kick := now) else RoamOf(x, p)
    ensures y.info[p].hearing.reports == ReportsOf(x, p)
  {
  }

  lemma {:induction false} KickMoves(cfg: Config, x: Table, y: Table, ln: NodeId, kick: Option<Ptr>, now: nat)
    requires KickedOut(x, y, ln, kick, now)
    ensures AllMoved(cfg, x, y, Reported(kick), now, now, KickedAt(kick, now), map[])
  {
    forall p | p in y.info
      ensures Moved(cfg, p, RoamOf(x, p), ReportsOf(x, p), y.info[p], Reported(kick), now, now,
                    More(KickedAt(kick, now), p), More(map[], p))
    {
      KickedOutAt(x, y, ln, kick, now, p);
      ReportedIsAbout(p, kick);
      hide KickedOut, RoamOf, ReportsOf, About, Reported;
    }
  }

  lemma {:induction false} ReportedIsAbout(p: Ptr, kick: Option<Ptr>)
    ensures About(p, Reported(kick)) == if kick == Some(p) then [Kicked(p)] else []
  {
    if kick.Some? {
      EmitsIsAbout(p, kick.value, Deauth);
    }
  }

  lemma {:induction false} SignalPassMoves(w: World, ln: NodeId, x: Table, y: Table, kick: Option<Ptr>)
    requires Serving(w, ln, x) && Weeded(w, ln, x, y, kick)
    ensures AllMoved(w.cfg, x, y, Reported(kick), w.now, w.now, KickedAt(kick, w.now), map[])
  {
    GrownItself(y, ln);
    KickMoves(w.cfg, x, y, ln, kick, w.now);
  }

  lemma {:induction false} LoadPassMoves(w: World, ln: NodeId, x: Table, y: Table, counts: map<NodeId, nat>,
                                         counts': map<NodeId, nat>, kick: Option<Ptr>)
    requires Serving(w, ln, x) && ln in counts && Unloaded(w, ln, x, y, counts, counts', kick)
    ensures AllMoved(w.cfg, x, y, Reported(kick), w.now, w.now, KickedAt(kick, w.now), map[])
  {
    KickMoves(w.cfg, x, y, ln, kick, w.now);
  }

  // ---------------------------------------------------------------- what the lives tell

  lemma {:induction false} VoiceIsShort(p: Ptr, i: Input, act: Act)
    ensures |Voice(p, i, act)| <= 1
  {
  }

  /** The m-th message comes from one input, and those before it from the inputs before. */
  lemma {:induction false} WhoSaid(cfg: Config, p: Ptr, ins: seq<Input>, m: nat) returns (k: nat)
    requires m < |Said(cfg, p, ins)|
    ensures k < |ins| && |Said(cfg, p, ins[..k])| == m
    ensures Voice(p, ins[k], ActOf(cfg, ins, k)) == [Said(cfg, p, ins)[m]]
  {
    hide Voice, ActOf;
    var n := |ins| - 1;
    var front := ins[..n];
    VoiceIsShort(p, ins[n], ActOf(cfg, ins, n));
    if m < |Said(cfg, p, front)| {
      k := WhoSaid(cfg, p, front, m);
      ActOfPrefix(cfg, ins, n, k);
      assert front[..k] == ins[..k];
    } else {
      k := n;
    }
  }

  lemma {:induction false} ActOfPrefix(cfg: Config, ins: seq<Input>, n: nat, k: nat)
    requires k < n <= |ins|
    ensures ActOf(cfg, ins[..n], k) == ActOf(cfg, ins, k)
  {
    hide Next;
    assert ins[..n][..k] == ins[..k];
  }

  /** What input `j` makes the machine say is said before what later ones do. */
  lemma {:induction false} SaidBefore(cfg: Config, p: Ptr, ins: seq<Input>, j: nat, k: nat, e: Event)
    requires j < k <= |ins| && Voice(p, ins[j], ActOf(cfg, ins, j)) == [e]
    ensures var m := |Said(cfg, p, ins[..j])|; m < |Said(cfg, p, ins[..k])| && Said(cfg, p, ins[..k])[m] == e
  {
    hide Voice, ActOf;
    assert ins[..k][..k - 1] == ins[..k - 1];
    ActOfPrefix(cfg, ins, k, k - 1);
    if j < k - 1 {
      SaidBefore(cfg, p, ins, j, k - 1, e);
    }
  }

  lemma {:induction false} AboutStep(p: Ptr, events: seq<Event>, i: nat)
    requires i < |events|
    ensures About(p, events[..i + 1])
         == About(p, events[..i]) + if !events[i].BeaconRequested? && events[i].p == p then [events[i]] else []
  {
    assert events[..i + 1][..i] == events[..i];
  }

  /** Where the m-th message about an entry is among all. */
  lemma {:induction false} AboutAt(p: Ptr, events: seq<Event>, n: nat, m: nat) returns (i: nat)
    requires n <= |events| && m < |About(p, events[..n])|
    ensures i < n && |About(p, events[..i])| == m && events[i] == About(p, events[..n])[m]
  {
    AboutStep(p, events, n - 1);
    if m < |About(p, events[..n - 1])| {
      i := AboutAt(p, events, n - 1, m);
    } else {
      i := n - 1;
    }
  }

  /** A message about an entry is among those about it. */
  lemma {:induction false} AboutHas(p: Ptr, events: seq<Event>, i: nat, n: nat)
    requires i < n <= |events| && !events[i].BeaconRequested? && events[i].p == p
    ensures var m := |About(p, events[..i])|; m < |About(p, events[..n])| && About(p, events[..n])[m] == events[i]
  {
    AboutStep(p, events, n - 1);
    if i < n - 1 {
      AboutHas(p, events, i, n - 1);
    }
  }

  /** A kick among the messages since the beginning of a life has its place in that life. */
  lemma {:induction false} KickHasInput(cfg: Config, p: Ptr, ins: seq<Input>, events: seq<Event>, n: nat) returns (k: nat)
    requires About(p, events) == Said(cfg, p, ins) && n < |events| && events[n] == Kicked(p)
    ensures k < |ins| && |Said(cfg, p, ins[..k])| == |About(p, events[..n])|
    ensures ins[k].OtherKick? || ActOf(cfg, ins, k) == Deauth
  {
    hide ActOf, Said, About;
    assert events[..|events|] == events;
    AboutHas(p, events, n, |events|);
    k := WhoSaid(cfg, p, ins, |About(p, events[..n])|);
  }

  /** What input `j` made the machine say is among the messages, before those of later inputs. */
  lemma {:induction false} NoticeInTrace(cfg: Config, p: Ptr, ins: seq<Input>, events: seq<Event>, n: nat, j: nat,
                                         k: nat) returns (a: nat)
    requires About(p, events) == Said(cfg, p, ins) && n <= |events| && j < k < |ins|
    requires |Said(cfg, p, ins[..k])| == |About(p, events[..n])|
    requires ins[j].Exam? && ActOf(cfg, ins, j) == Notify
    ensures a < n && events[a] == Notified(p)
  {
    hide ActOf, Said, About;
    assert events[..|events|] == events && ins[..|ins|] == ins;
    SaidBefore(cfg, p, ins, j, k, Notified(p));
    SaidBefore(cfg, p, ins, j, |ins|, Notified(p));
    var m := |Said(cfg, p, ins[..j])|;
    a := AboutAt(p, events, n, m);
    AboutIsAt(p, events, n, |events|, m);
  }

  lemma {:induction false} InTheTables(cfg: Config, x: Table, trace: seq<Event>, now: nat, h: map<Ptr, Life>, p: Ptr)
    requires Told(cfg, x, trace, now, h) && p in h
    ensures p in x.info
  {
  }

  lemma {:induction false} LifeFacts(cfg: Config, x: Table, trace: seq<Event>, now: nat, h: map<Ptr, Life>, p: Ptr)
    requires Told(cfg, x, trace, now, h) && p in x.info
    ensures p in h && InTime(h[p].ins) && h[p].born <= |trace| && About(p, trace[h[p].born..]) == Said(cfg, p, h[p].ins)
  {
    hide Said, About, InTime;
    assert Explains(cfg, p, RoamOf(x, p), ReportsOf(x, p), trace, now, h[p]);
  }

  /** What makes input `k` of a life an announced kick, `j` being the input that announced it. */
  ghost predicate Announced(cfg: Config, ins: seq<Input>, j: nat, k: nat) {
    var run := RunOf(cfg, ins);
    && j < k < |ins| && run.ins == ins
    && run.acts[k] == Deauth && run.acts[j] == Notify && ins[j].Exam?
    && ins[j].at + KickDelay(cfg) <= ins[k].at
    && Waiting(cfg, run, j, k) && Fit(cfg, run, j) && Fit(cfg, run, k)
  }

  lemma {:induction false} DeauthIsAnnounced(cfg: Config, ins: seq<Input>, k: nat) returns (j: nat)
    requires InTime(ins) && k < |ins| && ActOf(cfg, ins, k) == Deauth
    ensures Announced(cfg, ins, j, k) && ActOf(cfg, ins, j) == Notify
  {
    RunOfIsRun(cfg, ins);
    hide StateAfter, ActOf, IsRun;
    j := KickFollowsNotice(cfg, RunOf(cfg, ins), k);
  }

  lemma {:induction false} KickIsAnnounced(cfg: Config, p: Ptr, ins: seq<Input>, events: seq<Event>, n: nat)
    returns (k: nat, j: nat, a: nat)
    requires InTime(ins) && About(p, events) == Said(cfg, p, ins) && n < |events| && events[n] == Kicked(p)
    ensures k < |ins| && |Said(cfg, p, ins[..k])| == |About(p, events[..n])|
    ensures !ins[k].OtherKick? ==> Announced(cfg, ins, j, k) && a < n && events[a] == Notified(p)
  {
    hide *;
    k := KickHasInput(cfg, p, ins, events, n);
    j, a := 0, 0;
    if !ins[k].OtherKick? {
      j := DeauthIsAnnounced(cfg, ins, k);
      AnnouncedFacts(cfg, ins, j, k);
      a := NoticeInTrace(cfg, p, ins, events, n, j, k);
    }
  }

  /**
    In the daemon's messages, every kick of a client by the roam machine comes after a notice to the client, and at
    least the kick delay after it, with no examination in between that found it disconnected, strong, active or
    kicked lately; every other kick of it is by one of the other passes.
   */
  lemma {:induction false} KicksAreAnnounced(cfg: Config, x: Table, trace: seq<Event>, now: nat, h: map<Ptr, Life>,
                                             p: Ptr, n: nat)
    returns (k: nat, j: nat, a: nat)
    requires Told(cfg, x, trace, now, h) && p in h && h[p].born + n < |trace| && trace[h[p].born..][n] == Kicked(p)
    ensures var (ins, events) := (h[p].ins, trace[h[p].born..]);
      && k < |ins| && |Said(cfg, p, ins[..k])| == |About(p, events[..n])|
      && (!ins[k].OtherKick? ==> Announced(cfg, ins, j, k) && a < n && events[a] == Notified(p))
  {
    hide *;
    InTheTables(cfg, x, trace, now, h, p);
    LifeFacts(cfg, x, trace, now, h, p);
    k, j, a := KickIsAnnounced(cfg, p, h[p].ins, trace[h[p].born..], n);
  }

  lemma {:induction false} AnnouncedFacts(cfg: Config, ins: seq<Input>, j: nat, k: nat)
    requires Announced(cfg, ins, j, k)
    ensures j < k < |ins| && ins[j].Exam?
  {
  }

  /** The first messages about an entry stay the first. */
  lemma {:induction false} AboutIsAt(p: Ptr, events: seq<Event>, n: nat, n': nat, m: nat)
    requires n <= n' <= |events| && m < |About(p, events[..n])|
    ensures m < |About(p, events[..n'])| && About(p, events[..n'])[m] == About(p, events[..n])[m]
  {
    if n < n' {
      AboutIsAt(p, events, n, n' - 1, m);
      AboutStep(p, events, n' - 1);
    }
  }

  /** The life of an entry is a run of the roam machine that ends in the state the tables hold. */
  lemma {:induction false} LifeIsRun(cfg: Config, x: Table, trace: seq<Event>, now: nat, h: map<Ptr, Life>, p: Ptr)
    requires Told(cfg, x, trace, now, h) && p in x.info
    ensures var run := RunOf(cfg, h[p].ins);
      IsRun(cfg, run) && run.ins == h[p].ins && run.rs[|run.ins|] == x.info[p].roam
  {
    hide About, Said, Replay;
    assert Explains(cfg, p, RoamOf(x, p), ReportsOf(x, p), trace, now, h[p]);
    RunOfIsRun(cfg, h[p].ins);
    assert h[p].ins[..|h[p].ins|] == h[p].ins;
  }

  // Every message, with the act behind it.

  lemma {:induction false} AboutCounts(p: Ptr, events: seq<Event>, e: Event)
    requires !e.BeaconRequested? && e.p == p
    ensures multiset(About(p, events))[e] == multiset(events)[e]
  {
    if events != [] {
      var (front, last) := (events[..|events| - 1], events[|events| - 1]);
      AboutCounts(p, front, e);
      assert events == front + [last];
      assert multiset(events)[e] == multiset(front)[e] + multiset([last])[e];
    }
  }

  function OtherKicks(ins: seq<Input>): nat {
    if ins == [] then 0 else OtherKicks(ins[..|ins| - 1]) + if ins[|ins| - 1].OtherKick? then 1 else 0
  }

  /** As many messages of each kind as the machine acts, and kicks of the other passes. */
  ghost predicate Counts(p: Ptr, events: seq<Event>, ins: seq<Input>, acts: seq<Act>) {
    && multiset(events)[ScanTriggered(p)] == multiset(acts)[Trigger]
    && multiset(events)[Notified(p)] == multiset(acts)[Notify]
    && multiset(events)[Kicked(p)] == multiset(acts)[Deauth] + OtherKicks(ins)
  }

  lemma {:induction false} SaidCounts(cfg: Config, p: Ptr, ins: seq<Input>)
    ensures Counts(p, Said(cfg, p, ins), ins, RunOf(cfg, ins).acts)
  {
    hide StateAfter, ActOf, RunOf, Counts, Voice;
    if ins != [] {
      var n := |ins| - 1;
      var (front, act) := (ins[..n], ActOf(cfg, ins, n));
      SaidCounts(cfg, p, front);
      ActsGrow(cfg, ins);
      VoiceCounts(p, Said(cfg, p, front), front, RunOf(cfg, front).acts, ins[n], act);
      assert front + [ins[n]] == ins;
    } else {
      NothingCounted(cfg, p);
    }
  }

  lemma {:induction false} NothingCounted(cfg: Config, p: Ptr)
    ensures Counts(p, [], [], RunOf(cfg, []).acts)
  {
  }

  lemma {:induction false} ActsGrow(cfg: Config, ins: seq<Input>)
    requires ins != []
    ensures var n := |ins| - 1;
      RunOf(cfg, ins).acts == RunOf(cfg, ins[..n]).acts + [ActOf(cfg, ins, n)] && (ins[n].OtherKick? ==> ActOf(cfg, ins,
                                                                                                               n) == Nothing)
  {
    var n := |ins| - 1;
    hide StateAfter;
    assert forall k :: 0 <= k < n ==> ins[..n][..k] == ins[..k];
  }

  lemma {:induction false} VoiceCounts(p: Ptr, events: seq<Event>, ins: seq<Input>, acts: seq<Act>, i: Input, act: Act)
    requires Counts(p, events, ins, acts) && (i.OtherKick? ==> act == Nothing)
    ensures Counts(p, events + Voice(p, i, act), ins + [i], acts + [act])
  {
    assert (ins + [i])[..|ins|] == ins;
  }

  /** Since an entry was made, hostapd was told to scan, to move and to kick exactly as often as its life says. */
  lemma {:induction false} MessagesCounted(cfg: Config, x: Table, trace: seq<Event>, now: nat, h: map<Ptr, Life>, p: Ptr)
    requires Told(cfg, x, trace, now, h) && p in x.info
    ensures h[p].born <= |trace| && Counts(p, trace[h[p].born..], h[p].ins, RunOf(cfg, h[p].ins).acts)
  {
    hide Said, About, InTime, StateAfter, RunOf;
    LifeFacts(cfg, x, trace, now, h, p);
    SaidCounts(cfg, p, h[p].ins);
    var events := trace[h[p].born..];
    AboutCounts(p, events, ScanTriggered(p));
    AboutCounts(p, events, Notified(p));
    AboutCounts(p, events, Kicked(p));
  }

  /** In the tables too, the cache of a client is the view of the log of its accepted reports. */
  lemma {:induction false} TableCacheIsView(cfg: Config, x: Table, trace: seq<Event>, now: nat, h: map<Ptr, Life>, p: Ptr)
    requires Told(cfg, x, trace, now, h) && p in x.info && h[p].cache != []
    requires forall br :: br in Log(h[p].cache) ==> br.bssid != BROADCAST
    ensures var cache := h[p].cache;
      x.info[p].hearing.reports == View(cfg, cache[|cache| - 1].at, Log(cache))
  {
    hide *;
    CacheFacts(cfg, x, trace, now, h, p);
    LoggedCacheIsView(cfg, h[p].cache);
  }

  lemma {:induction false} CacheFacts(cfg: Config, x: Table, trace: seq<Event>, now: nat, h: map<Ptr, Life>, p: Ptr)
    requires Told(cfg, x, trace, now, h) && p in x.info
    ensures p in h && InOrder(h[p].cache) && Replay(cfg, h[p].cache) == x.info[p].hearing.reports
  {
    hide Said, About, InTime, InOrder, Replay;
    assert Explains(cfg, p, RoamOf(x, p), ReportsOf(x, p), trace, now, h[p]);
  }

  lemma {:induction false} LoggedCacheIsView(cfg: Config, cache: seq<Timed>)
    requires InOrder(cache) && cache != [] && forall br :: br in Log(cache) ==> br.bssid != BROADCAST
    ensures Replay(cfg, cache) == View(cfg, cache[|cache| - 1].at, Log(cache))
  {
    hide Replay, View, Log;
    forall i | 0 <= i < |cache| && cache[i].op.Accept?
      ensures cache[i].op.br.bssid != BROADCAST
    {
      InLog(cache, i);
    }
    CacheIsView(cfg, cache);
  }

  lemma {:induction false} InLog(ops: seq<Timed>, i: nat)
    requires i < |ops| && ops[i].op.Accept?
    ensures ops[i].op.br in Log(ops)
  {
    if i < |ops| - 1 {
      InLog(ops[..|ops| - 1], i);
    }
  }
}
