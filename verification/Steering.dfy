/**
  When is another access point the better one for a client?  The pairwise
  tests, and what they amount to for any number of access points.
 */
module Steering {
  import opened Types

  /** An access point together with how well it and the client hear each other. */
  datatype Candidate = Candidate(node: Node, strength: int)

  predicate BelowAssocThreshold(cfg: Config, cur: Node, other: Node) {
    var ref5g := cur.freq > 4000;
    var node5g := other.freq > 4000;
    var nOther := if ref5g && !node5g then other.nAssoc + cfg.bandSteeringThreshold else other.nAssoc;
    var nCur := if !ref5g && node5g then cur.nAssoc + cfg.bandSteeringThreshold else cur.nAssoc;
    nOther + cfg.loadBalancingThreshold <= nCur
  }

  /** `None` switches the comparison off. */
  predicate BetterStrength(margin: Option<nat>, cur: Candidate, other: Candidate) {
    margin.Some? && other.strength - cur.strength > margin.value
  }

  /** The margin for two signals in dBm. */
  function SignalMargin(cfg: Config): Option<nat> {
    if cfg.signalDiffThreshold == 0 then None else Some(cfg.signalDiffThreshold)
  }

  /** The margin for two received channel powers of beacon reports, kept in 16 bits. */
  function ReportMargin(cfg: Config): Option<nat> {
    if cfg.signalDiffThreshold == 0 then None
    else Some(((cfg.signalDiffThreshold / 100) * 255) % U16)
  }

  /** Despite the name in the source, this holds of a node ABOVE its load threshold. */
  predicate BelowLoadThreshold(cfg: Config, node: Node) {
    node.nAssoc >= cfg.loadKickMinClients && node.load > cfg.loadKickThreshold
  }

  predicate HasBetterLoad(cfg: Config, cur: Node, other: Node) {
    !BelowLoadThreshold(cfg, cur) && BelowLoadThreshold(cfg, other)
  }

  predicate BelowMaxAssoc(node: Node) {
    node.maxAssoc == 0 || node.nAssoc < node.maxAssoc
  }

  predicate IsBetterCandidate(cfg: Config, margin: Option<nat>, cur: Candidate, other: Candidate) {
    && BelowMaxAssoc(other.node)
    && (|| BelowAssocThreshold(cfg, cur.node, other.node)
        || BetterStrength(margin, cur, other)
        || HasBetterLoad(cfg, cur.node, other.node))
  }

  /** The test both candidate searches make: better, and not the other way round too. */
  predicate Prefers(cfg: Config, margin: Option<nat>, cur: Candidate, other: Candidate) {
    IsBetterCandidate(cfg, margin, cur, other) && !IsBetterCandidate(cfg, margin, other, cur)
  }

  function SnrToSignal(node: Node, snr: int): int {
    if snr < 0 then snr
    else (if node.noise != 0 then node.noise else -95) + snr
  }

  // ---------------------------------------------------------------- potentials

  /** Clients on the node, plus the handicap of not being a 5 GHz node. */
  function Phi(cfg: Config, node: Node): nat {
    node.nAssoc + if node.freq > 4000 then 0 else cfg.bandSteeringThreshold
  }

  /** The four-way band comparison is one comparison of potentials. */
  lemma BelowAssocIsPotential(cfg: Config, cur: Node, other: Node)
    ensures BelowAssocThreshold(cfg, cur, other)
       <==> Phi(cfg, other) + cfg.loadBalancingThreshold <= Phi(cfg, cur)
  {
  }

  /** One number that both ways of being better raise. */
  function Merit(cfg: Config, margin: Option<nat>, c: Candidate): int {
    var lb := cfg.loadBalancingThreshold;
    if margin.None? || lb == 0 then 0 - Phi(cfg, c.node)
    else (2 * lb - 1) * c.strength - (2 * margin.value + 1) * Phi(cfg, c.node)
  }

  /** How much `Merit` gains at least in one preferred step. */
  function Stride(cfg: Config, margin: Option<nat>): (gain: nat)
    ensures 1 <= gain
  {
    var lb := cfg.loadBalancingThreshold;
    if lb == 0 then 1 else if margin.None? then lb else lb + margin.value
  }

  /** The load flag first, then at least `k` strides of merit. */
  ghost predicate RankBelow(cfg: Config, margin: Option<nat>, a: Candidate, b: Candidate, k: nat) {
    var la := BelowLoadThreshold(cfg, a.node);
    var lb := BelowLoadThreshold(cfg, b.node);
    (!la && lb) || (la == lb && Merit(cfg, margin, a) + k * Stride(cfg, margin) <= Merit(cfg, margin, b))
  }

  lemma MulMono(k: nat, x: int, y: int)
    requires x <= y
    ensures k * x <= k * y
  {
  }

  lemma CrossTerms(lb: int, s: int)
    ensures (2 * s + 1) * lb - (2 * lb - 1) * s == lb + s
    ensures (2 * lb - 1) * (s + 1) - (2 * s + 1) * (lb - 1) == lb + s
  {
  }

  lemma MulNegate(k: int, x: int)
    ensures k * -x == -(k * x)
  {
  }

  /** With both comparisons on, a step that wins one and does not lose the other whole gains. */
  lemma StepGains(lb: int, s: int, dStrength: int, dPhi: int)
    requires 1 <= lb && 0 <= s
    requires dPhi <= -lb || dStrength >= s + 1
    requires dPhi <= lb - 1 && dStrength >= -s
    ensures (2 * lb - 1) * dStrength - (2 * s + 1) * dPhi >= lb + s
  {
    var p, q := 2 * lb - 1, 2 * s + 1;
    CrossTerms(lb, s);
    if dPhi <= -lb {
      MulMono(q, dPhi, -lb);
      MulMono(p, -s, dStrength);
      MulNegate(q, lb);
      MulNegate(p, s);
    } else {
      MulMono(q, dPhi, lb - 1);
      MulMono(p, s + 1, dStrength);
    }
  }

  /** What a preferred step out of a node that has room gains, in potential, strength and load. */
  lemma StepMeaning(cfg: Config, margin: Option<nat>, a: Candidate, b: Candidate)
    requires Prefers(cfg, margin, a, b) && BelowMaxAssoc(a.node)
    ensures var lb := cfg.loadBalancingThreshold;
      var (gain, rise) := (Phi(cfg, a.node) - Phi(cfg, b.node), b.strength - a.strength);
      && (lb <= gain || (margin.Some? && margin.value < rise) || HasBetterLoad(cfg, a.node, b.node))
      && 1 - lb <= gain
      && (margin.Some? ==> 0 <= rise + margin.value)
      && (BelowLoadThreshold(cfg, a.node) ==> BelowLoadThreshold(cfg, b.node))
  {
    BelowAssocIsPotential(cfg, a.node, b.node);
    BelowAssocIsPotential(cfg, b.node, a.node);
    hide Phi, BelowAssocThreshold, BelowLoadThreshold;
  }

  lemma MeritGains(cfg: Config, margin: Option<nat>, a: Candidate, b: Candidate)
    requires margin.Some? && cfg.loadBalancingThreshold != 0
    ensures Merit(cfg, margin, b) - Merit(cfg, margin, a)
      == (2 * cfg.loadBalancingThreshold - 1) * (b.strength - a.strength)
         - (2 * margin.value + 1) * (Phi(cfg, b.node) - Phi(cfg, a.node))
  {
    hide Phi;
    Distribute(2 * cfg.loadBalancingThreshold - 1, b.strength, a.strength);
    Distribute(2 * margin.value + 1, Phi(cfg, b.node), Phi(cfg, a.node));
  }

  lemma Distribute(k: int, x: int, y: int)
    ensures k * (x - y) == k * x - k * y
  {
  }

  /** A preferred step out of a node that has room strictly raises the rank. */
  lemma StepRaisesRank(cfg: Config, margin: Option<nat>, a: Candidate, b: Candidate)
    requires Prefers(cfg, margin, a, b) && BelowMaxAssoc(a.node)
    ensures RankBelow(cfg, margin, a, b, 1)
  {
    StepMeaning(cfg, margin, a, b);
    hide Prefers, Phi, BelowLoadThreshold, BelowMaxAssoc;
    var lb := cfg.loadBalancingThreshold;
    if margin.Some? && lb != 0 && !HasBetterLoad(cfg, a.node, b.node) {
      StepGains(lb, margin.value, b.strength - a.strength, Phi(cfg, b.node) - Phi(cfg, a.node));
      MeritGains(cfg, margin, a, b);
      hide Merit;
    }
  }

  /** Conversely: no handicap in load, count or signal and a whole threshold in one is preferred. */
  lemma DominatingIsPreferred(cfg: Config, margin: Option<nat>, a: Candidate, b: Candidate)
    requires BelowMaxAssoc(b.node)
    requires BelowLoadThreshold(cfg, a.node) ==> BelowLoadThreshold(cfg, b.node)
    requires Phi(cfg, b.node) < Phi(cfg, a.node) + cfg.loadBalancingThreshold
    requires margin.Some? ==> a.strength - b.strength <= margin.value
    requires || Phi(cfg, b.node) + cfg.loadBalancingThreshold <= Phi(cfg, a.node)
             || (margin.Some? && b.strength - a.strength > margin.value)
             || (!BelowLoadThreshold(cfg, a.node) && BelowLoadThreshold(cfg, b.node))
    ensures Prefers(cfg, margin, a, b) && !Prefers(cfg, margin, b, a)
  {
    BelowAssocIsPotential(cfg, a.node, b.node);
    BelowAssocIsPotential(cfg, b.node, a.node);
  }

  /**
    Exactly when the load decides: a node above its load threshold is preferred to one that is not, unless
    it is full, or the other has room and is better in count or strength by a threshold.
   */
  lemma LoadedNodeWins(cfg: Config, margin: Option<nat>, a: Candidate, b: Candidate)
    requires !BelowLoadThreshold(cfg, a.node) && BelowLoadThreshold(cfg, b.node)
    ensures Prefers(cfg, margin, a, b)
       <==> && BelowMaxAssoc(b.node)
            && !(&& BelowMaxAssoc(a.node)
                 && (|| Phi(cfg, a.node) + cfg.loadBalancingThreshold <= Phi(cfg, b.node)
                     || BetterStrength(margin, b, a)))
    ensures Prefers(cfg, margin, b, a)
       <==> && BelowMaxAssoc(a.node) && !BelowMaxAssoc(b.node)
            && (|| Phi(cfg, a.node) + cfg.loadBalancingThreshold <= Phi(cfg, b.node)
                || BetterStrength(margin, b, a))
  {
    BelowAssocIsPotential(cfg, b.node, a.node);
  }

  // ---------------------------------------------------------------- no cycles

  /** Each member prefers the next one. */
  ghost predicate Chain(cfg: Config, margin: Option<nat>, cs: seq<Candidate>) {
    forall i :: 0 < i < |cs| ==> Prefers(cfg, margin, cs[i - 1], cs[i])
  }

  lemma {:induction false} ChainRaisesRank(cfg: Config, margin: Option<nat>, cs: seq<Candidate>)
    requires 2 <= |cs| && Chain(cfg, margin, cs) && BelowMaxAssoc(cs[0].node)
    ensures RankBelow(cfg, margin, cs[0], cs[|cs| - 1], |cs| - 1)
  {
    var n := |cs| - 1;
    StepRaisesRank(cfg, margin, cs[0], cs[1]);
    if n > 1 {
      var rest := cs[1..];
      assert forall i :: 0 <= i < |rest| ==> rest[i] == cs[i + 1];
      ChainRaisesRank(cfg, margin, rest);
      assert (n - 1) * Stride(cfg, margin) + Stride(cfg, margin) == n * Stride(cfg, margin);
    }
  }

  /** No chain of preferences, of whatever length, comes back to where it started. */
  lemma NoCycle(cfg: Config, margin: Option<nat>, cs: seq<Candidate>)
    requires 2 <= |cs| && Chain(cfg, margin, cs)
    ensures cs[0] != cs[|cs| - 1]
  {
    var last := |cs| - 1;
    if cs[0] == cs[last] {
      assert Prefers(cfg, margin, cs[last - 1], cs[last]);
      ChainRaisesRank(cfg, margin, cs);
      MulMono(|cs| - 1, 1, Stride(cfg, margin));
    }
  }

  /** So it never visits a candidate twice either. */
  lemma ChainVisitsOnce(cfg: Config, margin: Option<nat>, cs: seq<Candidate>, i: nat, j: nat)
    requires Chain(cfg, margin, cs) && i < j < |cs|
    ensures cs[i] != cs[j]
  {
    var part := cs[i..j + 1];
    assert forall k :: 0 <= k < |part| ==> part[k] == cs[i + k];
    NoCycle(cfg, margin, part);
  }

  /** Among the first `n`, one with room whose rank no other one with room exceeds. */
  lemma {:induction false} BestWithRoom(cfg: Config, margin: Option<nat>, cs: seq<Candidate>, n: nat) returns (best: nat)
    requires n <= |cs|
    requires exists i :: 0 <= i < n && BelowMaxAssoc(cs[i].node)
    ensures best < n && BelowMaxAssoc(cs[best].node)
    ensures forall i :: 0 <= i < n && BelowMaxAssoc(cs[i].node) ==> !RankBelow(cfg, margin, cs[best], cs[i], 1)
  {
    if forall i :: 0 <= i < n - 1 ==> !BelowMaxAssoc(cs[i].node) {
      best := n - 1;
    } else {
      best := BestWithRoom(cfg, margin, cs, n - 1);
      if BelowMaxAssoc(cs[n - 1].node) && RankBelow(cfg, margin, cs[best], cs[n - 1], 1) {
        best := n - 1;
      }
    }
  }

  /** Whatever access points there are, one of them is preferred by none of the others. */
  lemma UnbeatenExists(cfg: Config, margin: Option<nat>, cs: seq<Candidate>) returns (best: nat)
    requires cs != []
    ensures best < |cs| && forall i :: 0 <= i < |cs| ==> !Prefers(cfg, margin, cs[best], cs[i])
  {
    if forall i :: 0 <= i < |cs| ==> !BelowMaxAssoc(cs[i].node) {
      best := 0;
    } else {
      best := BestWithRoom(cfg, margin, cs, |cs|);
      forall i | 0 <= i < |cs|
        ensures !Prefers(cfg, margin, cs[best], cs[i])
      {
        if Prefers(cfg, margin, cs[best], cs[i]) {
          StepRaisesRank(cfg, margin, cs[best], cs[i]);
        }
      }
    }
  }

  // ---------------------------------------------------------------- moving clients

  /** Without signal comparison, one client of `ns[i]` may move to `ns[j]`. */
  ghost predicate CanMove(cfg: Config, ns: seq<Node>, i: nat, j: nat) {
    && i < |ns| && j < |ns| && i != j
    && 0 < ns[i].nAssoc
    && Prefers(cfg, None, Candidate(ns[i], 0), Candidate(ns[j], 0))
  }

  function Move(ns: seq<Node>, i: nat, j: nat): seq<Node>
    requires i < |ns| && j < |ns| && i != j && 0 < ns[i].nAssoc
  {
    ns[i := ns[i].(nAssoc := ns[i].nAssoc - 1)][j := ns[j].(nAssoc := ns[j].nAssoc + 1)]
  }

  ghost predicate Step(cfg: Config, ns: seq<Node>, ms: seq<Node>) {
    exists i: nat, j: nat :: CanMove(cfg, ns, i, j) && ms == Move(ns, i, j)
  }

  ghost predicate Run(cfg: Config, run: seq<seq<Node>>) {
    run != [] && forall k :: 0 < k < |run| ==> Step(cfg, run[k - 1], run[k])
  }

  /** No node is above its load threshold. */
  ghost predicate Calm(cfg: Config, ns: seq<Node>) {
    forall i :: 0 <= i < |ns| ==> ns[i].load <= cfg.loadKickThreshold
  }

  function Energy(cfg: Config, ns: seq<Node>): nat {
    if ns == [] then 0
    else Energy(cfg, ns[..|ns| - 1]) + Phi(cfg, ns[|ns| - 1]) * Phi(cfg, ns[|ns| - 1])
  }

  lemma {:induction false} EnergyOfUpdate(cfg: Config, ns: seq<Node>, i: nat, node: Node)
    requires i < |ns|
    ensures Energy(cfg, ns[i := node])
         == Energy(cfg, ns) - Phi(cfg, ns[i]) * Phi(cfg, ns[i]) + Phi(cfg, node) * Phi(cfg, node)
  {
    var n := |ns| - 1;
    if i < n {
      EnergyOfUpdate(cfg, ns[..n], i, node);
      assert ns[i := node][..n] == ns[..n][i := node];
    } else {
      assert ns[i := node][..n] == ns[..n];
    }
  }

  lemma SquaresAfterMove(x: int, y: int)
    ensures (x - 1) * (x - 1) + (y + 1) * (y + 1) == x * x + y * y - 2 * (x - y - 1)
  {
  }

  lemma MoveCostsEnergy(cfg: Config, ns: seq<Node>, i: nat, j: nat)
    requires CanMove(cfg, ns, i, j) && Calm(cfg, ns)
    ensures Calm(cfg, Move(ns, i, j))
    ensures Energy(cfg, Move(ns, i, j)) + 2 * (cfg.loadBalancingThreshold - 1) <= Energy(cfg, ns)
  {
    BelowAssocIsPotential(cfg, ns[i], ns[j]);
    var from := ns[i].(nAssoc := ns[i].nAssoc - 1);
    var to := ns[j].(nAssoc := ns[j].nAssoc + 1);
    EnergyOfUpdate(cfg, ns, i, from);
    EnergyOfUpdate(cfg, ns[i := from], j, to);
    var x: int, y: int := Phi(cfg, ns[i]), Phi(cfg, ns[j]);
    assert Phi(cfg, from) == x - 1 && Phi(cfg, to) == y + 1;
    SquaresAfterMove(x, y);
  }

  /** From two clients of margin on, every run of moves is bounded by the energy it starts with. */
  lemma {:induction false} MovesAreBounded(cfg: Config, run: seq<seq<Node>>)
    requires 2 <= cfg.loadBalancingThreshold
    requires Run(cfg, run) && Calm(cfg, run[0])
    ensures 2 * (cfg.loadBalancingThreshold - 1) * (|run| - 1) <= Energy(cfg, run[0])
  {
    hide Energy, Calm, Prefers, Move;
    if |run| > 1 {
      assert Step(cfg, run[0], run[1]);
      var i: nat, j: nat :| CanMove(cfg, run[0], i, j) && run[1] == Move(run[0], i, j);
      MoveCostsEnergy(cfg, run[0], i, j);
      var rest := run[1..];
      assert forall k :: 0 <= k < |rest| ==> rest[k] == run[k + 1];
      MovesAreBounded(cfg, rest);
      TimesOneMore(2 * (cfg.loadBalancingThreshold - 1), |rest| - 1);
    }
  }

  lemma TimesOneMore(c: int, n: int)
    ensures c * (n + 1) == c * n + c
  {
  }

  /** No node has more clients than it takes. */
  ghost predicate WithinCapacity(ns: seq<Node>) {
    forall i :: 0 <= i < |ns| ==> ns[i].maxAssoc == 0 || ns[i].nAssoc <= ns[i].maxAssoc
  }

  ghost function Clients(ns: seq<Node>): nat {
    if ns == [] then 0 else Clients(ns[..|ns| - 1]) + ns[|ns| - 1].nAssoc
  }

  lemma {:induction false} ClientsOfUpdate(ns: seq<Node>, i: nat, node: Node)
    requires i < |ns|
    ensures Clients(ns[i := node]) == Clients(ns) - ns[i].nAssoc + node.nAssoc
  {
    var n := |ns| - 1;
    if i < n {
      ClientsOfUpdate(ns[..n], i, node);
      assert ns[i := node][..n] == ns[..n][i := node];
    } else {
      assert ns[i := node][..n] == ns[..n];
    }
  }

  lemma MoveKeepsCapacity(cfg: Config, ns: seq<Node>, i: nat, j: nat)
    requires CanMove(cfg, ns, i, j) && WithinCapacity(ns)
    ensures WithinCapacity(Move(ns, i, j)) && Clients(Move(ns, i, j)) == Clients(ns)
  {
    hide Clients, BelowAssocThreshold, BetterStrength, HasBetterLoad;
    var from := ns[i].(nAssoc := ns[i].nAssoc - 1);
    ClientsOfUpdate(ns, i, from);
    ClientsOfUpdate(ns[i := from], j, ns[j].(nAssoc := ns[j].nAssoc + 1));
  }

  /** No run of moves, at whatever margins, overfills a node or loses a client. */
  lemma {:induction false} MovesKeepCapacity(cfg: Config, run: seq<seq<Node>>)
    requires Run(cfg, run) && WithinCapacity(run[0])
    ensures WithinCapacity(run[|run| - 1]) && Clients(run[|run| - 1]) == Clients(run[0])
  {
    hide Clients, WithinCapacity;
    if |run| > 1 {
      assert Step(cfg, run[0], run[1]);
      var i: nat, j: nat :| CanMove(cfg, run[0], i, j) && run[1] == Move(run[0], i, j);
      MoveKeepsCapacity(cfg, run[0], i, j);
      var rest := run[1..];
      assert forall k :: 0 <= k < |rest| ==> rest[k] == run[k + 1];
      MovesKeepCapacity(cfg, rest);
    }
  }

  /** Below that margin some client can be sent to and fro for as long as one likes. */
  lemma {:induction false} MovesCanOscillate(cfg: Config, n: nat) returns (run: seq<seq<Node>>)
    requires cfg.loadBalancingThreshold <= 1
    ensures |run| == n + 1 && Run(cfg, run) && Calm(cfg, run[0])
  {
    var full := Node("net", 1, 2412, 0, 1, 0, 0);
    var empty := full.(nAssoc := 0);
    var left, right := [full, empty], [empty, full];
    assert CanMove(cfg, left, 0, 1) && Move(left, 0, 1) == right;
    assert CanMove(cfg, right, 1, 0) && Move(right, 1, 0) == left;
    run := seq(n + 1, k requires 0 <= k => if k % 2 == 0 then left else right);
    assert forall k :: 0 < k < |run| ==> Step(cfg, run[k - 1], run[k]);
  }
}
