/**
  What a client reports to hear: its cache of beacon reports, and when it is
  asked to listen on which band.
 */
module HearingMap {
  import opened Types
  import opened Arithmetic

  datatype Report = Report(
    owner: Ptr,
    bssid: Bssid,
    rcpi: int,
    rsni: int,
    opClass: int,
    channel: int,
    time: nat)

  /** The part of a station entry that deals with beacon reports. */
  datatype Hearing = Hearing(
    band: int,
    failed: nat,
    lastReport: nat,
    lastRequest: nat,
    reports: seq<Report>)

  // ---------------------------------------------------------------- the report cache

  function LifeTime(cfg: Config): nat {
    (cfg.beaconReportTimeout * 1000) % U32
  }

  predicate Expired(cfg: Config, now: nat, br: Report) {
    LifeTime(cfg) < Since(now, br.time)
  }

  /** What is left of `reports` when those of `bssid` and the expired ones go. */
  function Keep(cfg: Config, now: nat, bssid: Option<Bssid>, reports: seq<Report>): seq<Report> {
    if reports == [] then []
    else
      (if bssid == Some(reports[0].bssid) || Expired(cfg, now, reports[0]) then [] else [reports[0]])
      + Keep(cfg, now, bssid, reports[1..])
  }

  lemma {:induction false} KeepMembers(cfg: Config, now: nat, bssid: Option<Bssid>, s: seq<Report>)
    ensures forall br :: br in Keep(cfg, now, bssid, s) <==> br in s && !Expired(cfg, now, br) && bssid != Some(br.bssid)
  {
    if s != [] {
      KeepMembers(cfg, now, bssid, s[1..]);
    }
  }

  lemma {:induction false} KeepTwice(cfg: Config, now: nat, bssid: Option<Bssid>, s: seq<Report>)
    ensures Keep(cfg, now, bssid, Keep(cfg, now, bssid, s)) == Keep(cfg, now, bssid, s)
  {
    if s != [] {
      KeepTwice(cfg, now, bssid, s[1..]);
      var rest := Keep(cfg, now, bssid, s[1..]);
      KeepCons(cfg, now, bssid, s[0], rest);
      assert [] + rest == rest;
    }
  }

  lemma KeepNone(cfg: Config, now: nat, bssid: Option<Bssid>)
    ensures Keep(cfg, now, bssid, []) == []
  {
  }

  lemma KeepCons(cfg: Config, now: nat, bssid: Option<Bssid>, br: Report, s: seq<Report>)
    ensures Keep(cfg, now, bssid, [br] + s)
         == (if bssid == Some(br.bssid) || Expired(cfg, now, br) then [] else [br]) + Keep(cfg, now, bssid, s)
  {
    assert ([br] + s)[1..] == s;
  }

  /** The list walk that frees reports as it goes. */
  method Cleanup(cfg: Config, now: nat, reports: seq<Report>, bssid: Bssid) returns (kept: seq<Report>)
    ensures kept == Keep(cfg, now, Some(bssid), reports)
  {
    hide Keep, Expired;
    kept := reports;
    var i := 0;
    KeepNone(cfg, now, Some(bssid));
    assert kept[..0] == [] && kept[0..] == reports;
    while i < |kept|
      invariant 0 <= i <= |kept|
      invariant kept[..i] + Keep(cfg, now, Some(bssid), kept[i..]) == Keep(cfg, now, Some(bssid), reports)
      decreases |kept| - i
    {
      ghost var done, br, rest := kept[..i], kept[i], kept[i + 1..];
      assert kept[i..] == [br] + rest;
      KeepCons(cfg, now, Some(bssid), br, rest);
      if kept[i].bssid == bssid || Expired(cfg, now, kept[i]) {
        kept := kept[..i] + kept[i + 1..];
        assert kept[..i] == done && kept[i..] == rest;
      } else {
        i := i + 1;
        assert kept[..i] == done + [br];
      }
    }
    assert kept[..i] == kept && kept[i..] == [];
  }

  /** A new report replaces the one of the same access point and goes to the front. */
  method Insert(cfg: Config, now: nat, reports: seq<Report>, br: Report) returns (r: seq<Report>)
    ensures r == Inserted(cfg, now, reports, br)
  {
    var kept := Cleanup(cfg, now, reports, br.bssid);
    r := [br] + kept;
  }

  function Inserted(cfg: Config, now: nat, reports: seq<Report>, br: Report): seq<Report> {
    [br] + Keep(cfg, now, Some(br.bssid), reports)
  }

  // The reference: the full log of accepted reports, oldest first.

  function Others(bssid: Bssid, s: seq<Report>): seq<Report> {
    if s == [] then []
    else (if s[0].bssid == bssid then [] else [s[0]]) + Others(bssid, s[1..])
  }

  /** The log read newest first, keeping the latest report per access point. */
  function Latest(log: seq<Report>): seq<Report> {
    if log == [] then []
    else
      var br := log[|log| - 1];
      [br] + Others(br.bssid, Latest(log[..|log| - 1]))
  }

  /** What the cache should hold at time `now`. */
  function View(cfg: Config, now: nat, log: seq<Report>): seq<Report> {
    Keep(cfg, now, None, Latest(log))
  }

  ghost predicate IsLatest(log: seq<Report>, i: int) {
    0 <= i < |log| && forall j :: i < j < |log| ==> log[j].bssid != log[i].bssid
  }

  lemma {:induction false} OthersMembers(bssid: Bssid, s: seq<Report>, br: Report)
    ensures br in Others(bssid, s) <==> br in s && br.bssid != bssid
  {
    if s != [] {
      OthersMembers(bssid, s[1..], br);
    }
  }

  lemma LatestInFront(log: seq<Report>, i: int)
    requires IsLatest(log, i) && i < |log| - 1
    ensures var front := log[..|log| - 1];
      IsLatest(front, i) && front[i] == log[i] && log[i].bssid != log[|log| - 1].bssid
  {
    var front := log[..|log| - 1];
    assert forall j :: 0 <= j < |front| ==> front[j] == log[j];
  }

  lemma {:induction false} LatestIsKept(log: seq<Report>, i: int)
    requires IsLatest(log, i)
    ensures log[i] in Latest(log)
  {
    hide Latest, IsLatest;
    LatestBounds(log, i);
    LatestStep(log, log[i]);
    if i < |log| - 1 {
      LatestInFront(log, i);
      LatestIsKept(log[..|log| - 1], i);
    }
  }

  lemma LatestBounds(log: seq<Report>, i: int)
    requires IsLatest(log, i)
    ensures 0 <= i < |log|
  {
  }

  lemma {:induction false} KeptIsLatest(log: seq<Report>, br: Report) returns (i: int)
    requires br in Latest(log)
    ensures IsLatest(log, i) && log[i] == br
  {
    var n := |log| - 1;
    LatestStep(log, br);
    if br == log[n] {
      i := n;
    } else {
      i := KeptIsLatest(log[..n], br);
    }
  }

  /** `Latest` holds exactly the reports no later one of the same access point supersedes. */
  lemma LatestMembers(log: seq<Report>, br: Report)
    ensures br in Latest(log) <==> exists i :: IsLatest(log, i) && log[i] == br
  {
    if br in Latest(log) {
      var i := KeptIsLatest(log, br);
    }
    if i :| IsLatest(log, i) && log[i] == br {
      LatestIsKept(log, i);
    }
  }

  lemma LatestStep(log: seq<Report>, br: Report)
    requires log != []
    ensures var (front, last) := (log[..|log| - 1], log[|log| - 1]);
      br in Latest(log) <==> br == last || (br in Latest(front) && br.bssid != last.bssid)
  {
    var (front, last) := (log[..|log| - 1], log[|log| - 1]);
    OthersMembers(last.bssid, Latest(front), br);
    assert Latest(log) == [last] + Others(last.bssid, Latest(front));
  }

  /** What the cache should hold, in numbers: the latest report of each access point that is not too old. */
  lemma ViewMembers(cfg: Config, now: nat, log: seq<Report>, br: Report)
    ensures br in View(cfg, now, log)
       <==> Since(now, br.time) <= (cfg.beaconReportTimeout * 1000) % 0x1_0000_0000
            && exists i :: IsLatest(log, i) && log[i] == br
  {
    KeepMembers(cfg, now, None, Latest(log));
    LatestMembers(log, br);
  }

  ghost predicate OnePerBssid(s: seq<Report>) {
    forall i, j :: 0 <= i < j < |s| ==> s[i].bssid != s[j].bssid
  }

  lemma {:induction false} LatestDistinct(log: seq<Report>)
    ensures OnePerBssid(Latest(log))
  {
    if log != [] {
      var n := |log| - 1;
      LatestDistinct(log[..n]);
      OthersDistinct(log[n].bssid, Latest(log[..n]));
      var rest := Others(log[n].bssid, Latest(log[..n]));
      forall i | 0 <= i < |rest|
        ensures rest[i].bssid != log[n].bssid
      {
        OthersMembers(log[n].bssid, Latest(log[..n]), rest[i]);
      }
    }
  }

  lemma {:induction false} OthersDistinct(bssid: Bssid, s: seq<Report>)
    requires OnePerBssid(s)
    ensures OnePerBssid(Others(bssid, s))
  {
    if s != [] {
      var rest := s[1..];
      OthersDistinct(bssid, rest);
      var r := Others(bssid, rest);
      forall i | 0 <= i < |r|
        ensures r[i].bssid != s[0].bssid
      {
        OthersMembers(bssid, rest, r[i]);
      }
    }
  }

  /** Dropping the held ones early does not matter: later they are held as well. */
  lemma {:induction false} KeepLater(cfg: Config, t: nat, now: nat, bssid: Bssid, s: seq<Report>)
    requires t <= now && forall br :: br in s ==> br.time <= t
    ensures Keep(cfg, now, Some(bssid), Keep(cfg, t, None, s)) == Keep(cfg, now, None, Others(bssid, s))
  {
    if s != [] {
      var rest := s[1..];
      KeepLater(cfg, t, now, bssid, rest);
      assert s[0] in s;
      var held, others := Keep(cfg, t, None, rest), Others(bssid, rest);
      KeepCons(cfg, now, Some(bssid), s[0], held);
      KeepCons(cfg, now, None, s[0], others);
      assert Keep(cfg, t, None, s) == if Expired(cfg, t, s[0]) then held else [s[0]] + held;
      assert Others(bssid, s) == if s[0].bssid == bssid then others else [s[0]] + others;
    }
  }

  lemma {:induction false} OthersNone(bssid: Bssid, s: seq<Report>)
    requires forall br :: br in s ==> br.bssid != bssid
    ensures Others(bssid, s) == s
  {
    if s != [] {
      OthersNone(bssid, s[1..]);
    }
  }

  lemma LatestFromLog(log: seq<Report>)
    ensures forall br :: br in Latest(log) ==> br in log
  {
    forall br | br in Latest(log)
      ensures br in log
    {
      LatestMembers(log, br);
    }
  }

  // One client's cache over a whole run.

  datatype CacheOp = Accept(br: Report) | Sweep
  datatype Timed = Timed(at: nat, op: CacheOp)

  function Apply(cfg: Config, s: seq<Report>, o: Timed): seq<Report> {
    match o.op
    case Accept(br) => Inserted(cfg, o.at, s, br)
    case Sweep => Keep(cfg, o.at, Some(BROADCAST), s)
  }

  function Replay(cfg: Config, ops: seq<Timed>): seq<Report> {
    if ops == [] then []
    else Apply(cfg, Replay(cfg, ops[..|ops| - 1]), ops[|ops| - 1])
  }

  function Log(ops: seq<Timed>): seq<Report> {
    if ops == [] then []
    else
      var o := ops[|ops| - 1];
      Log(ops[..|ops| - 1]) + if o.op.Accept? then [o.op.br] else []
  }

  /** Time does not run backwards, and reports are stamped on arrival. */
  ghost predicate InOrder(ops: seq<Timed>) {
    && (forall i, j :: 0 <= i < j < |ops| ==> ops[i].at <= ops[j].at)
    && (forall i :: 0 <= i < |ops| && ops[i].op.Accept? ==> ops[i].op.br.time == ops[i].at)
  }

  /** And no access point is called FF:FF:... */
  ghost predicate Orderly(ops: seq<Timed>) {
    InOrder(ops) && forall i :: 0 <= i < |ops| && ops[i].op.Accept? ==> ops[i].op.br.bssid != BROADCAST
  }

  lemma {:induction false} LogTimes(ops: seq<Timed>, t: nat)
    requires Orderly(ops) && forall i :: 0 <= i < |ops| ==> ops[i].at <= t
    ensures forall br :: br in Log(ops) ==> br.time <= t && br.bssid != BROADCAST
  {
    if ops != [] {
      LogTimes(ops[..|ops| - 1], t);
    }
  }

  /** After every insertion or sweep of any run, the cache is the view of the full log at that time. */
  lemma {:induction false} CacheIsView(cfg: Config, ops: seq<Timed>)
    requires ops != [] && Orderly(ops)
    ensures Replay(cfg, ops) == View(cfg, ops[|ops| - 1].at, Log(ops))
  {
    var n := |ops| - 1;
    var front, o := ops[..n], ops[n];
    var t := if n == 0 then 0 else ops[n - 1].at;
    assert Replay(cfg, front) == View(cfg, t, Log(front)) by {
      if n > 0 { CacheIsView(cfg, front); }
    }
    var latest := Latest(Log(front));
    LogTimes(front, t);
    LatestFromLog(Log(front));
    match o.op {
      case Accept(br) =>
        KeepLater(cfg, t, o.at, br.bssid, latest);
        assert Log(ops)[..|Log(ops)| - 1] == Log(front);
        KeepCons(cfg, o.at, None, br, Others(br.bssid, latest));
      case Sweep =>
        KeepLater(cfg, t, o.at, BROADCAST, latest);
        OthersNone(BROADCAST, latest);
        assert Log(ops) == Log(front);
    }
  }

  // ---------------------------------------------------------------- beacon requests

  function Abs(x: real): real {
    if x < 0.0 then 0.0 - x else x
  }

  /** The signal squashed into (-1, 1), around -60 dBm. */
  function Reception(signal: int): real {
    var adj := (signal + 60) as real;
    adj / (1.0 + Abs(adj))
  }

  /** The time that has to pass between two rows of requests. */
  function Gap(cfg: Config, signal: int): real {
    Scaled(cfg.beaconRequestFrequency as real, cfg.beaconRequestSignalModifier as real, Reception(signal))
  }

  function Scaled(base: real, modifier: real, factor: real): real {
    base + modifier * factor
  }

  lemma QuotientLe(a: real, b: real, c: real, d: real)
    requires 0.0 < b && 0.0 < d && a * d <= c * b
    ensures a / b <= c / d
  {
    assert (a / b) * b == a && (c / d) * d == c;
  }

  lemma QuotientLt(a: real, b: real)
    requires 0.0 < b && -b < a < b
    ensures -1.0 < a / b < 1.0
  {
    assert (a / b) * b == a;
  }

  lemma Squash(x: real, y: real)
    requires x <= y
    ensures x / (1.0 + Abs(x)) <= y / (1.0 + Abs(y))
    ensures -1.0 < x / (1.0 + Abs(x)) < 1.0
  {
    QuotientLt(x, 1.0 + Abs(x));
    if 0.0 <= x || y < 0.0 {
      assert x * Abs(y) == y * Abs(x);
    } else {
      assert x * (1.0 + Abs(y)) <= 0.0 <= y * (1.0 + Abs(x));
    }
    assert x * (1.0 + Abs(y)) == x + x * Abs(y) && y * (1.0 + Abs(x)) == y + y * Abs(x);
    QuotientLe(x, 1.0 + Abs(x), y, 1.0 + Abs(y));
  }

  /** A stronger signal never shortens the gap, and it stays strictly within the modifier. */
  lemma GapMonotone(cfg: Config, s: int, t: int)
    requires s <= t
    ensures Gap(cfg, s) <= Gap(cfg, t)
    ensures 0 < cfg.beaconRequestSignalModifier ==>
      var (f, m) := (cfg.beaconRequestFrequency as real, cfg.beaconRequestSignalModifier as real);
      f - m < Gap(cfg, s) < f + m
  {
    ReceptionMonotone(s, t);
    hide Reception, Scaled;
    ScaledMono(cfg.beaconRequestFrequency as real, cfg.beaconRequestSignalModifier as real, Reception(s), Reception(t));
  }

  /** The gap exactly: above -60 dBm by so much, below it by as much less. */
  lemma GapInNumbers(cfg: Config, d: nat)
    ensures var (f, m) := (cfg.beaconRequestFrequency as real, cfg.beaconRequestSignalModifier as real);
      && (Gap(cfg, d - 60) - f) * (d + 1) as real == m * d as real
      && Gap(cfg, -60 - d) - f == f - Gap(cfg, d - 60)
  {
    var (u, m) := (d as real, cfg.beaconRequestSignalModifier as real);
    assert Reception(d - 60) * (1.0 + u) == u;
    assert Reception(-60 - d) == 0.0 - Reception(d - 60) by {
      assert (0.0 - u) / (1.0 + u) == 0.0 - u / (1.0 + u);
    }
    assert m * Reception(d - 60) * (1.0 + u) == m * (Reception(d - 60) * (1.0 + u));
    assert m * (0.0 - Reception(d - 60)) == 0.0 - m * Reception(d - 60);
  }

  lemma ScaledMono(f: real, m: real, u: real, v: real)
    requires 0.0 <= m && u <= v && -1.0 < u < 1.0
    ensures Scaled(f, m, u) <= Scaled(f, m, v)
    ensures 0.0 < m ==> f - m < Scaled(f, m, u) < f + m
  {
    assert m * (v - u) >= 0.0;
    if 0.0 < m {
      assert m * (1.0 - u) > 0.0 && m * (1.0 + u) > 0.0;
    }
  }

  lemma ReceptionMonotone(s: int, t: int)
    requires s <= t
    ensures Reception(s) <= Reception(t) && -1.0 < Reception(s) < 1.0
  {
    Squash((s + 60) as real, (t + 60) as real);
  }

  method NextBand(freqs: seq<int>, freq: int) returns (next: int)
    requires freqs != []
    ensures next == NextInCycle(freqs, freq)
  {
    var bandAlreadyScanned := true;
    var i := 0;
    while i < |freqs|
      invariant 0 <= i <= |freqs|
      invariant bandAlreadyScanned <==> freq !in freqs[..i]
      invariant !bandAlreadyScanned ==> After(freqs, freq) == FirstOther(freqs[i..], freq)
      invariant bandAlreadyScanned ==> After(freqs, freq) == After(freqs[i..], freq)
    {
      assert freqs[i..][1..] == freqs[i + 1..];
      if freq == freqs[i] {
        bandAlreadyScanned := false;
      } else if !bandAlreadyScanned {
        return freqs[i];
      }
      i := i + 1;
    }
    next := freqs[0];
  }

  function FirstOther(freqs: seq<int>, freq: int): Option<int> {
    if freqs == [] then None
    else if freqs[0] != freq then Some(freqs[0])
    else FirstOther(freqs[1..], freq)
  }

  /** The first band other than `freq` listed after `freq`. */
  function After(freqs: seq<int>, freq: int): Option<int> {
    if freqs == [] then None
    else if freqs[0] == freq then FirstOther(freqs[1..], freq)
    else After(freqs[1..], freq)
  }

  function NextInCycle(freqs: seq<int>, freq: int): int
    requires freqs != []
  {
    var next := After(freqs, freq);
    if next.Some? then next.value else freqs[0]
  }

  /** The request mode, from how many rows in succession brought no report. */
  function Mode(freq: int, failed: nat): nat {
    if freq < 4000 && failed < 3 then 1
    else if freq < 4000 && failed < 7 then 0
    else if freq > 4000 && failed < 5 then 0
    else 2
  }

  function FailedRows(own: int, h: Hearing, freq: int): nat {
    if own != freq then h.failed
    else ((if h.lastRequest < h.lastReport then h.failed / 2 else h.failed) + 1) % U8
  }

  /** A request sent: when, at which reception, on which band and how. */
  datatype Request = Request(at: nat, signal: int, freq: int, mode: nat)

  predicate MustWait(cfg: Config, now: nat, own: int, signal: int, h: Hearing) {
    h.band == own && Since(now, h.lastRequest) as real < Gap(cfg, signal)
  }

  function Checked(cfg: Config, now: nat, own: int, signal: int, freqs: seq<int>, h: Hearing): (Hearing, Option<Request>)
    requires freqs != []
  {
    if MustWait(cfg, now, own, signal, h) then (h, None)
    else
      var failed := FailedRows(own, h, h.band);
      var next := h.(failed := failed, band := NextInCycle(freqs, h.band));
      var row := if h.band != own then next
                 else next.(lastRequest := now, reports := Keep(cfg, now, Some(BROADCAST), h.reports));
      (row, Some(Request(now, signal, h.band, Mode(h.band, failed))))
  }

  /** Ask the client for a report on its current band, unless it is too early for a new row. */
  method RequestCheck(cfg: Config, now: nat, own: int, signal: int, freqs: seq<int>, h: Hearing)
    returns (h': Hearing, sent: Option<Request>)
    requires freqs != []
    ensures (h', sent) == Checked(cfg, now, own, signal, freqs, h)
  {
    h' := h;
    var freq := h.band;
    if MustWait(cfg, now, own, signal, h) {
      return h, None;
    }
    h' := h'.(failed := FailedRows(own, h, freq));
    sent := Some(Request(now, signal, freq, Mode(freq, h'.failed)));
    if h'.band == own {
      var kept := Cleanup(cfg, now, h'.reports, BROADCAST);
      h' := h'.(lastRequest := now, reports := kept);
    }
    var next := NextBand(freqs, freq);
    h' := h'.(band := next);
  }

  /** The modes in numbers: active (1), passive (0), and from the table (2), in this order as rows fail. */
  lemma ModeInNumbers(freq: int, failed: nat)
    ensures freq < 4000 ==> (Mode(freq, failed) == 1 <==> failed <= 2) && (Mode(freq, failed) == 0 <==> 3 <= failed <= 6)
    ensures freq > 4000 ==> Mode(freq, failed) != 1 && (Mode(freq, failed) == 0 <==> failed <= 4)
    ensures freq == 4000 ==> Mode(freq, failed) == 2
    ensures Mode(freq, failed) <= 2
  {
  }

  /** On another band than its own a client is always asked, on its own one once the gap is over; that begins a row. */
  lemma AskedWhenDue(cfg: Config, now: nat, own: int, signal: int, freqs: seq<int>, h: Hearing)
    requires freqs != [] && h.lastRequest <= now
    ensures var (h', sent) := Checked(cfg, now, own, signal, freqs, h);
      && (sent.Some? <==> h.band != own || Gap(cfg, signal) <= (now - h.lastRequest) as real)
      && (sent.None? ==> h' == h)
      && (sent.Some? ==> sent.value.at == now && sent.value.signal == signal && sent.value.freq == h.band
                         && sent.value.mode == Mode(h.band, h'.failed) && h'.lastReport == h.lastReport)
      && (sent.Some? && h.band != own ==>
            h'.failed == h.failed && h'.lastRequest == h.lastRequest && h'.reports == h.reports)
      && (sent.Some? && h.band == own ==>
            && h'.lastRequest == now
            && h'.failed == ((if h.lastReport > h.lastRequest then h.failed / 2 else h.failed) + 1) % 256
            && forall br :: br in h'.reports <==> br in h.reports && !Expired(cfg, now, br) && br.bssid != BROADCAST)
  {
    KeepMembers(cfg, now, Some(BROADCAST), h.reports);
  }

  datatype Check = Check(at: nat, signal: int)

  /** The requests a run of checks sends. */
  function Requests(cfg: Config, own: int, freqs: seq<int>, h: Hearing, checks: seq<Check>): seq<Request>
    requires freqs != []
    decreases |checks|
  {
    if checks == [] then []
    else
      var (h', sent) := Checked(cfg, checks[0].at, own, checks[0].signal, freqs, h);
      (if sent.Some? then [sent.value] else []) + Requests(cfg, own, freqs, h', checks[1..])
  }

  function HearingAfter(cfg: Config, own: int, freqs: seq<int>, h: Hearing, checks: seq<Check>): Hearing
    requires freqs != []
    decreases |checks|
  {
    if checks == [] then h
    else HearingAfter(cfg, own, freqs, Checked(cfg, checks[0].at, own, checks[0].signal, freqs, h).0, checks[1..])
  }

  /** One more check at the end of a run. */
  lemma {:induction false} RequestsGoOn(cfg: Config, own: int, freqs: seq<int>, h: Hearing, checks: seq<Check>, c: Check)
    requires freqs != []
    ensures var (h', sent) := Checked(cfg, c.at, own, c.signal, freqs, HearingAfter(cfg, own, freqs, h, checks));
      && HearingAfter(cfg, own, freqs, h, checks + [c]) == h'
      && Requests(cfg, own, freqs, h, checks + [c])
         == Requests(cfg, own, freqs, h, checks) + if sent.Some? then [sent.value] else []
    decreases |checks|
  {
    hide Checked;
    if checks != [] {
      RequestsGoOn(cfg, own, freqs, Checked(cfg, checks[0].at, own, checks[0].signal, freqs, h).0, checks[1..], c);
      assert (checks + [c])[1..] == checks[1..] + [c];
    } else {
      assert [c][1..] == [] && checks + [c] == [c];
    }
  }

  /** How many of the requests begin a row. */
  function OwnRows(own: int, r: seq<Request>): nat {
    if r == [] then 0 else (if r[0].freq == own then 1 else 0) + OwnRows(own, r[1..])
  }

  /** As long as no report comes, the mode of each request goes by the rows begun until then, in a byte. */
  lemma {:induction false} ModesOfRun(cfg: Config, own: int, freqs: seq<int>, h: Hearing, checks: seq<Check>, j: nat)
    requires freqs != [] && h.failed < U8 && h.lastReport <= h.lastRequest && Forward(checks, h.lastRequest)
    requires j < |Requests(cfg, own, freqs, h, checks)|
    ensures var r := Requests(cfg, own, freqs, h, checks);
      r[j].mode == Mode(r[j].freq, (h.failed + OwnRows(own, r[..j + 1])) % U8)
    decreases |checks|
  {
    hide Gap, Mode, Checked, Expired, OwnRows;
    var (h', sent) := Checked(cfg, checks[0].at, own, checks[0].signal, freqs, h);
    var rest := Requests(cfg, own, freqs, h', checks[1..]);
    AskedWhenDue(cfg, checks[0].at, own, checks[0].signal, freqs, h);
    assert Forward(checks[1..], h'.lastRequest);
    if sent.None? {
      assert Requests(cfg, own, freqs, h, checks) == rest;
      ModesOfRun(cfg, own, freqs, h', checks[1..], j);
    } else {
      RowsOnFrom(own, sent.value, rest, j);
      RemainderSum(h.failed + if h.band == own then 1 else 0, OwnRows(own, rest[..j]), U8);
      RemainderSum(h.failed, 0, U8);
      if j > 0 {
        ModesOfRun(cfg, own, freqs, h', checks[1..], j - 1);
      } else {
        NoRows(own, rest[..0]);
      }
    }
  }

  lemma NoRows(own: int, r: seq<Request>)
    requires r == []
    ensures OwnRows(own, r) == 0
  {
  }

  lemma RowsOnFrom(own: int, q: Request, rest: seq<Request>, j: nat)
    requires j <= |rest|
    ensures OwnRows(own, ([q] + rest)[..j + 1]) == (if q.freq == own then 1 else 0) + OwnRows(own, rest[..j])
  {
    assert ([q] + rest)[..j + 1][1..] == rest[..j];
  }

  ghost predicate Distinct(freqs: seq<int>) {
    forall i, j :: 0 <= i < j < |freqs| ==> freqs[i] != freqs[j]
  }

  lemma {:induction false} NextIsSuccessor(freqs: seq<int>, i: nat)
    requires Distinct(freqs) && i < |freqs|
    ensures After(freqs, freqs[i]) == if i + 1 < |freqs| then Some(freqs[i + 1]) else None
  {
    if i > 0 {
      NextIsSuccessor(freqs[1..], i - 1);
    }
  }

  /** However the checks fall, the j-th request from band `i` on is for the j-th next band of the cycle. */
  lemma {:induction false} RequestsCycle(cfg: Config, own: int, freqs: seq<int>, h: Hearing, checks: seq<Check>,
                                         i: nat, j: nat)
    requires Distinct(freqs) && i < |freqs| && h.band == freqs[i]
    requires j < |Requests(cfg, own, freqs, h, checks)|
    ensures Requests(cfg, own, freqs, h, checks)[j].freq == freqs[(i + j) % |freqs|]
    decreases |checks|
  {
    var n := |freqs|;
    var h' := Checked(cfg, checks[0].at, own, checks[0].signal, freqs, h).0;
    var rest := Requests(cfg, own, freqs, h', checks[1..]);
    CheckCycles(cfg, own, freqs, h, checks, i);
    if h' == h && Requests(cfg, own, freqs, h, checks) == rest {
      RequestsCycle(cfg, own, freqs, h', checks[1..], i, j);
    } else if j > 0 {
      var next := if i + 1 < n then i + 1 else 0;
      RequestsCycle(cfg, own, freqs, h', checks[1..], next, j - 1);
      if next == 0 {
        WrapOnce(n, j - 1);
      }
    } else {
      UniqueRemainder(i, n, 0, i);
    }
  }

  /** One check waits, or asks for the current band and goes on to the next of the cycle. */
  lemma CheckCycles(cfg: Config, own: int, freqs: seq<int>, h: Hearing, checks: seq<Check>, i: nat)
    requires Distinct(freqs) && i < |freqs| && h.band == freqs[i] && checks != []
    ensures var h' := Checked(cfg, checks[0].at, own, checks[0].signal, freqs, h).0;
      var (all, rest) := (Requests(cfg, own, freqs, h, checks), Requests(cfg, own, freqs, h', checks[1..]));
      || (h' == h && all == rest)
      || (&& |all| == |rest| + 1 && all[1..] == rest && all[0].freq == freqs[i]
          && h'.band == freqs[if i + 1 < |freqs| then i + 1 else 0])
  {
    NextIsSuccessor(freqs, i);
  }

  function Slot(n: nat, start: nat, j: nat): int {
    if start + j < n then start + j else start + j - n
  }

  ghost predicate Asks(r: seq<Request>, freq: int) {
    exists j :: 0 <= j < |r| && r[j].freq == freq
  }

  ghost predicate EachOnce(freqs: seq<int>, r: seq<Request>) {
    && |r| == |freqs|
    && (forall j, k :: 0 <= j < k < |r| ==> r[j].freq != r[k].freq)
    && (forall b :: 0 <= b < |freqs| ==> Asks(r, freqs[b]))
  }

  /** A list rotated is still each element once. */
  lemma RotationCovers(freqs: seq<int>, r: seq<Request>, start: nat)
    requires Distinct(freqs) && |r| == |freqs| && start < |freqs|
    requires forall j :: 0 <= j < |r| ==> r[j].freq == freqs[Slot(|freqs|, start, j)]
    ensures EachOnce(freqs, r)
  {
    var n := |freqs|;
    forall b | 0 <= b < |freqs|
      ensures Asks(r, freqs[b])
    {
      var j := if start <= b then b - start else b - start + n;
      assert Slot(n, start, j) == b && r[j].freq == freqs[b];
    }
  }

  lemma RequestInCycle(cfg: Config, own: int, freqs: seq<int>, h: Hearing, checks: seq<Check>, i: nat, from: nat, j: nat)
    requires Distinct(freqs) && i < |freqs| && h.band == freqs[i]
    requires j < |freqs| && from + j < |Requests(cfg, own, freqs, h, checks)|
    ensures Requests(cfg, own, freqs, h, checks)[from + j].freq == freqs[Slot(|freqs|, (i + from) % |freqs|, j)]
  {
    RequestsCycle(cfg, own, freqs, h, checks, i, from + j);
    RotatedIndex(|freqs|, i + from, j);
    assert i + (from + j) == (i + from) + j;
  }

  /** Any `n` requests in a row ask for each of the `n` local bands once. */
  lemma EachBandOncePerCycle(cfg: Config, own: int, freqs: seq<int>, h: Hearing, checks: seq<Check>, i: nat, from: nat)
    requires Distinct(freqs) && i < |freqs| && h.band == freqs[i]
    requires from + |freqs| <= |Requests(cfg, own, freqs, h, checks)|
    ensures EachOnce(freqs, Requests(cfg, own, freqs, h, checks)[from..from + |freqs|])
  {
    var r := Requests(cfg, own, freqs, h, checks)[from..from + |freqs|];
    forall j: nat | j < |freqs|
      ensures r[j].freq == freqs[Slot(|freqs|, (i + from) % |freqs|, j)]
    {
      RequestInCycle(cfg, own, freqs, h, checks, i, from, j);
    }
    RotationCovers(freqs, r, (i + from) % |freqs|);
  }

  ghost predicate Forward(checks: seq<Check>, from: nat) {
    forall i :: 0 <= i < |checks| ==> from <= checks[i].at && forall j :: i < j < |checks| ==> checks[i].at <= checks[j].at
  }

  /** Two rows (requests on the client's own band) of any run are at least the later one's gap apart. */
  lemma {:induction false} RowsAreSpaced(cfg: Config, own: int, freqs: seq<int>, h: Hearing, checks: seq<Check>, j: nat)
    requires freqs != [] && Forward(checks, h.lastRequest)
    requires j < |Requests(cfg, own, freqs, h, checks)|
    ensures var r := Requests(cfg, own, freqs, h, checks);
      && h.lastRequest <= r[j].at
      && (r[j].freq == own ==> (r[j].at - h.lastRequest) as real >= Gap(cfg, r[j].signal))
      && forall i :: 0 <= i < j && r[i].freq == own && r[j].freq == own ==>
           r[i].at <= r[j].at && (r[j].at - r[i].at) as real >= Gap(cfg, r[j].signal)
    decreases |checks|
  {
    hide Gap, Mode, FailedRows, Keep, NextInCycle;
    var (h', sent) := Checked(cfg, checks[0].at, own, checks[0].signal, freqs, h);
    var r, rest := Requests(cfg, own, freqs, h, checks), Requests(cfg, own, freqs, h', checks[1..]);
    assert Forward(checks[1..], h'.lastRequest);
    if sent.None? {
      RowsAreSpaced(cfg, own, freqs, h', checks[1..], j);
    } else if j > 0 {
      assert r == [sent.value] + rest;
      RowsAreSpaced(cfg, own, freqs, h', checks[1..], j - 1);
      forall i | 0 <= i < j && r[i].freq == own && r[j].freq == own
        ensures r[i].at <= r[j].at && (r[j].at - r[i].at) as real >= Gap(cfg, r[j].signal)
      {
        if i > 0 { assert r[i] == rest[i - 1]; }
      }
    }
  }
}
