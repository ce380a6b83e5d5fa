/**
  Stations and their entries.  An entry (one station as one node knows it) is
  linked into two lists, its station's and its node's; the index is the three
  tables together.  Pointers are explicit because entries are freed.
 */
module Stations {
  import opened Types
  import opened Lists
  import opened Index
  import opened HearingMap
  import opened Roam

  datatype EventType = Probe | Assoc | Auth

  datatype Stats = Stats(requests: nat, blockedCur: nat, blockedTotal: nat, blockedLastTime: nat)

  datatype StaInfo = StaInfo(
    node: NodeId,
    sta: Addr,
    connected: nat,
    signal: int,
    seen: nat,
    created: nat,
    probe: Stats,
    assoc: Stats,
    auth: Stats,
    roam: Roaming,
    kickCount: nat,
    activeBits: nat,
    hearing: Hearing)
  {
    function StatsOf(kind: EventType): Stats {
      match kind
      case Probe => probe
      case Assoc => assoc
      case Auth => auth
    }

    function WithStats(kind: EventType, s: Stats): StaInfo {
      match kind
      case Probe => this.(probe := s)
      case Assoc => this.(assoc := s)
      case Auth => this.(auth := s)
    }
  }

  const NO_STATS := Stats(0, 0, 0, 0)

  /** A new entry, zeroed but for the few fields the source sets. */
  function NewEntry(node: NodeId, sta: Addr, freq: int, now: nat): StaInfo {
    StaInfo(node, sta, 0, 0, 0, now, NO_STATS, NO_STATS, NO_STATS, INITIAL, 0, 0, Hearing(freq, 0, 0, 0, []))
  }

  /** Nothing has happened to the entry yet that the policy goes by. */
  predicate Blank(si: StaInfo) {
    && si.connected == 0 && si.roam == INITIAL && si.hearing.reports == []
    && si.probe == NO_STATS && si.assoc == NO_STATS && si.auth == NO_STATS
  }

  /** All there is to a new entry, field by field. */
  lemma NewEntryInFields(node: NodeId, sta: Addr, freq: int, now: nat)
    ensures var si := NewEntry(node, sta, freq, now);
      && Blank(si) && si.node == node && si.sta == sta && si.created == now && si.seen == 0 && si.signal == 0
      && si.kickCount == 0 && si.activeBits == 0
      && si.hearing.band == freq && si.hearing.failed == 0 && si.hearing.lastReport == 0 && si.hearing.lastRequest == 0
      && forall kind :: si.StatsOf(kind).requests == 0 && si.StatsOf(kind).blockedCur == 0
                        && si.StatsOf(kind).blockedTotal == 0 && si.StatsOf(kind).blockedLastTime == 0
  {
  }

  datatype Table = Table(
    info: map<Ptr, StaInfo>,
    stations: map<Addr, seq<Ptr>>,
    lists: map<NodeId, seq<Ptr>>)

  /** The roam machine and the report cache of an entry; those of a blank one before it is made. */
  function RoamOf(x: Table, p: Ptr): Roaming {
    if p in x.info then x.info[p].roam else INITIAL
  }

  function ReportsOf(x: Table, p: Ptr): seq<Report> {
    if p in x.info then x.info[p].hearing.reports else []
  }

  function StatsIn(x: Table, p: Ptr, kind: EventType): Stats {
    if p in x.info then x.info[p].StatsOf(kind) else NO_STATS
  }

  function StaOf(info: map<Ptr, StaInfo>): map<Ptr, Addr> {
    map p | p in info :: info[p].sta
  }

  function NodeOf(info: map<Ptr, StaInfo>): map<Ptr, NodeId> {
    map p | p in info :: info[p].node
  }

  ghost predicate OnePerPair(sta: map<Ptr, Addr>, node: map<Ptr, NodeId>) {
    forall p, q :: p in sta && q in sta && p in node && q in node && sta[p] == sta[q] && node[p] == node[q] ==> p == q
  }

  /** Both ways of listing the entries list the same ones, each once, and no pair has two. */
  ghost predicate Indexed(x: Table) {
    && Side(StaOf(x.info), x.stations)
    && Side(NodeOf(x.info), x.lists)
    && OnePerPair(StaOf(x.info), NodeOf(x.info))
  }

  /** No station is left without an entry. */
  ghost predicate Inhabited(x: Table) {
    forall a :: a in x.stations ==> x.stations[a] != []
  }

  /** Every report in an entry's cache points back to the entry. */
  ghost predicate ReportsOwned(info: map<Ptr, StaInfo>) {
    forall p, br :: p in info && br in info[p].hearing.reports ==> br.owner == p
  }

  /** Same entries with the same stations and nodes; the rest may differ. */
  ghost predicate SameLinks(info: map<Ptr, StaInfo>, info': map<Ptr, StaInfo>) {
    info'.Keys == info.Keys && forall p :: p in info ==> info'[p].sta == info[p].sta && info'[p].node == info[p].node
  }

  lemma PayloadKeepsIndex(x: Table, info': map<Ptr, StaInfo>)
    requires Indexed(x) && SameLinks(x.info, info')
    ensures Indexed(x.(info := info'))
  {
    assert StaOf(info') == StaOf(x.info) && NodeOf(info') == NodeOf(x.info);
  }

  /** The list of a station holds its entries. */
  lemma StationMembers(x: Table, a: Addr)
    requires Indexed(x) && a in x.stations
    ensures forall p :: p in x.stations[a] ==> p in x.info && x.info[p].sta == a
    ensures forall p :: p in x.info && x.info[p].sta == a ==> p in x.stations[a]
  {
    forall p | p in x.stations[a]
      ensures p in x.info && x.info[p].sta == a
    {
      assert p in StaOf(x.info) && StaOf(x.info)[p] == a;
    }
    forall p | p in x.info && x.info[p].sta == a
      ensures p in x.stations[a]
    {
      assert p in StaOf(x.info);
    }
  }

  /** The list of a node holds its entries. */
  lemma NodeMembers(x: Table, n: NodeId)
    requires Indexed(x) && n in x.lists
    ensures forall p :: p in x.lists[n] ==> p in x.info && x.info[p].node == n
    ensures forall p :: p in x.info && x.info[p].node == n ==> p in x.lists[n]
    ensures NoDup(x.lists[n])
  {
    forall p | p in x.lists[n]
      ensures p in x.info && x.info[p].node == n
    {
      assert p in NodeOf(x.info) && NodeOf(x.info)[p] == n;
    }
    forall p | p in x.info && x.info[p].node == n
      ensures p in x.lists[n]
    {
      assert p in NodeOf(x.info);
    }
  }

  /** Two entries of one node are of two stations. */
  lemma OneStationEach(x: Table, p: Ptr, q: Ptr)
    requires Indexed(x) && p in x.info && q in x.info && p != q && x.info[p].node == x.info[q].node
    ensures x.info[p].sta != x.info[q].sta
  {
    assert p in StaOf(x.info) && q in StaOf(x.info) && p in NodeOf(x.info) && q in NodeOf(x.info);
  }

  /** Every entry is in the list of its station and of its node. */
  lemma EntryListed(x: Table, p: Ptr)
    requires Indexed(x) && p in x.info
    ensures x.info[p].sta in x.stations && p in x.stations[x.info[p].sta]
    ensures x.info[p].node in x.lists && p in x.lists[x.info[p].node]
  {
    assert p in StaOf(x.info) && p in NodeOf(x.info);
  }

  // ---------------------------------------------------------------- deletion

  /** The index when the entries of `dead`, and the stations with no other, are gone. */
  function Delete(x: Table, dead: set<Ptr>): Table {
    Table(x.info - dead, Prune(x.stations, dead), Thin(x.lists, dead))
  }

  lemma DeleteKeepsIndex(x: Table, dead: set<Ptr>)
    requires Indexed(x) && Inhabited(x)
    ensures Indexed(Delete(x, dead)) && Inhabited(Delete(x, dead))
  {
    assert StaOf(x.info - dead) == StaOf(x.info) - dead && NodeOf(x.info - dead) == NodeOf(x.info) - dead;
    PruneSide(StaOf(x.info), x.stations, dead);
    ThinSide(NodeOf(x.info), x.lists, dead);
  }

  lemma DeleteCompose(x: Table, dead: set<Ptr>, more: set<Ptr>)
    ensures Delete(Delete(x, dead), more) == Delete(x, dead + more)
  {
    PruneCompose(x.stations, dead, more);
    ThinCompose(x.lists, dead, more);
  }

  lemma DeleteNothing(x: Table)
    requires Inhabited(x)
    ensures Delete(x, {}) == x
  {
    NothingDead(x.stations);
    NothingDead(x.lists);
  }

  /** What the source does for one entry is `Delete` of that entry: no other list holds it. */
  lemma UnlinkIsDelete(x: Table, p: Ptr)
    requires Indexed(x) && Inhabited(x) && p in x.info
    ensures var (a, n) := (x.info[p].sta, x.info[p].node);
      && a in x.stations && n in x.lists
      && var left := Minus(x.stations[a], {p});
         Delete(x, {p}) == Table(
           x.info - {p},
           if left == [] then x.stations - {a} else x.stations[a := left],
           x.lists[n := Minus(x.lists[n], {p})])
  {
    PruneOne(StaOf(x.info), x.stations, p);
    ThinOne(NodeOf(x.info), x.lists, p);
  }

  /** Cleaning up a node frees its entries, and the stations only it knew; every other list keeps its order. */
  lemma CleanupMeaning(x: Table, n: NodeId)
    requires Indexed(x) && Inhabited(x) && n in x.lists
    ensures var y := Delete(x, Elements(x.lists[n]));
      && (forall p :: p in y.info <==> p in x.info && x.info[p].node != n)
      && (forall p :: p in y.info ==> y.info[p] == x.info[p])
      && y.lists == x.lists[n := []]
      && (forall a :: a in y.stations <==> a in x.stations && exists p :: p in x.stations[a] && p in y.info)
      && (forall a :: a in y.stations ==> y.stations[a] == Minus(x.stations[a], Elements(x.lists[n])))
  {
    NodeMembers(x, n);
    CleanupLists(x, n);
    forall a | a in x.stations
      ensures Minus(x.stations[a], Elements(x.lists[n])) != [] <==>
        exists p :: p in x.stations[a] && p in x.info && p !in Elements(x.lists[n])
    {
      StationMembers(x, a);
      SurvivorExists(x.stations[a], Elements(x.lists[n]));
    }
  }

  lemma SurvivorExists(s: seq<Ptr>, dead: set<Ptr>)
    ensures Minus(s, dead) != [] <==> exists p :: p in s && p !in dead
  {
    MinusMembers(s, dead);
    if Minus(s, dead) != [] {
      assert Minus(s, dead)[0] in Minus(s, dead);
    }
  }

  lemma CleanupLists(x: Table, n: NodeId)
    requires Indexed(x) && n in x.lists
    ensures Thin(x.lists, Elements(x.lists[n])) == x.lists[n := []]
  {
    var dead := Elements(x.lists[n]);
    NodeMembers(x, n);
    forall m | m in x.lists
      ensures Minus(x.lists[m], dead) == if m == n then [] else x.lists[m]
    {
      if m == n {
        MinusAll(x.lists[m], dead);
      } else {
        NodeMembers(x, m);
        MinusNone(x.lists[m], dead);
      }
    }
  }

  /** The index is consistent, timers belong to entries, and reports to theirs. */
  ghost predicate Sound(x: Table, timers: set<Ptr>) {
    Indexed(x) && timers <= x.info.Keys && ReportsOwned(x.info)
  }

  lemma SoundDelete(x: Table, timers: set<Ptr>, dead: set<Ptr>)
    requires Sound(x, timers) && Inhabited(x)
    ensures Sound(Delete(x, dead), timers - dead) && Inhabited(Delete(x, dead))
    ensures Delete(x, dead).lists.Keys == x.lists.Keys
  {
    DeleteKeepsIndex(x, dead);
  }

  lemma SoundWrite(x: Table, timers: set<Ptr>, p: Ptr, si: StaInfo)
    requires Sound(x, timers) && p in x.info && si.sta == x.info[p].sta && si.node == x.info[p].node
    requires forall br :: br in si.hearing.reports ==> br.owner == p
    ensures Sound(x.(info := x.info[p := si]), timers)
  {
    PayloadKeepsIndex(x, x.info[p := si]);
  }

  // ---------------------------------------------------------------- insertion

  /** A new entry at the front of both lists. */
  function Add(x: Table, p: Ptr, si: StaInfo): Table
    requires si.sta in x.stations && si.node in x.lists
  {
    Table(
      x.info[p := si],
      x.stations[si.sta := [p] + x.stations[si.sta]],
      x.lists[si.node := [p] + x.lists[si.node]])
  }

  lemma AddKeepsIndex(x: Table, p: Ptr, si: StaInfo)
    requires Indexed(x) && p !in x.info
    requires si.sta in x.stations && si.node in x.lists
    requires forall q :: q in x.stations[si.sta] ==> q in x.info && x.info[q].node != si.node
    ensures Indexed(Add(x, p, si))
  {
    hide Side, OnePerPair;
    OwnersAdded(x.info, p, si);
    LinkSide(StaOf(x.info), x.stations, p, si.sta);
    LinkSide(NodeOf(x.info), x.lists, p, si.node);
    StationMembers(x, si.sta);
    forall q | q in StaOf(x.info) && StaOf(x.info)[q] == si.sta
      ensures NodeOf(x.info)[q] != si.node
    {
      assert q in x.stations[si.sta];
    }
    PairAdded(StaOf(x.info), NodeOf(x.info), p, si.sta, si.node);
  }

  lemma OwnersAdded(info: map<Ptr, StaInfo>, p: Ptr, si: StaInfo)
    ensures StaOf(info[p := si]) == StaOf(info)[p := si.sta]
    ensures NodeOf(info[p := si]) == NodeOf(info)[p := si.node]
    ensures StaOf(info).Keys == info.Keys == NodeOf(info).Keys
  {
  }

  lemma PairAdded(sta: map<Ptr, Addr>, node: map<Ptr, NodeId>, p: Ptr, a: Addr, n: NodeId)
    requires OnePerPair(sta, node) && sta.Keys == node.Keys
    requires forall q :: q in sta && sta[q] == a ==> node[q] != n
    ensures OnePerPair(sta[p := a], node[p := n])
  {
  }

  lemma SoundAdd(x: Table, timers: set<Ptr>, p: Ptr, si: StaInfo)
    requires Sound(x, timers) && p !in x.info && si.hearing.reports == []
    requires si.sta in x.stations && si.node in x.lists
    requires forall q :: q in x.info && x.info[q].sta == si.sta ==> x.info[q].node != si.node
    ensures Sound(Add(x, p, si), timers)
    ensures Add(x, p, si).lists.Keys == x.lists.Keys
  {
    StationMembers(x, si.sta);
    AddKeepsIndex(x, p, si);
  }

  lemma SoundStation(x: Table, timers: set<Ptr>, a: Addr)
    requires Sound(x, timers) && a !in x.stations
    ensures Sound(x.(stations := x.stations[a := []]), timers)
  {
    assert forall p :: p in StaOf(x.info) ==> StaOf(x.info)[p] in x.stations;
  }
}
