/**
  The roam machine of one client: scan, notify, kick.  Runs are arbitrary
  interleavings of examinations by the roam pass, kicks by other passes and
  frames heard from the client.
 */
module Roam {
  import opened Types

  datatype State = Idle | Scan | ScanDone | WaitKick | NotifyKick | Kick

  /** The roaming part of a station entry; `tries` is a byte. */
  datatype Roaming = Roaming(state: State, tries: nat, event: nat, kick: nat, scanDone: nat)

  /** What an examination tells hostapd to do. */
  datatype Act = Nothing | Trigger | Notify | Deauth

  const INITIAL := Roaming(Idle, 0, 0, 0, 0)

  function KickDelay(cfg: Config): nat {
    (cfg.roamKickDelay * 100) % U32
  }

  function StaleAfter(cfg: Config): nat {
    (2 * cfg.roamScanInterval) % U32
  }

  function SetState(now: nat, r: Roaming, s: State): Roaming {
    var tries := if r.state == s && s != Idle then (r.tries + 1) % U8 else 0;
    r.(state := s, tries := tries, event := now)
  }

  /** One step of the machine, for a client that is `strong` (above the trigger signal) and may have a `candidate`. */
  function TriggerSm(cfg: Config, now: nat, strong: bool, candidate: bool, r: Roaming): (Roaming, Act) {
    match r.state
    case Scan =>
      if Since(now, r.event) < cfg.roamScanInterval then (r, Nothing)
      else if candidate || r.scanDone > r.event then (SetState(now, r, ScanDone), Nothing)
      else if cfg.roamScanTries != 0 && r.tries >= cfg.roamScanTries then (SetState(now, r, WaitKick), Nothing)
      else (SetState(now, r, Scan), Trigger)
    case Idle =>
      (SetState(now, r, if candidate then ScanDone else Scan), Nothing)
    case ScanDone =>
      if Since(now, r.scanDone) > StaleAfter(cfg) then (SetState(now, r, Scan), Nothing)
      else if !candidate then (r, Nothing)
      else (SetState(now, r, WaitKick), Nothing)
    case WaitKick =>
      if strong then (r, Nothing) else (SetState(now, r, NotifyKick), Notify)
    case NotifyKick =>
      if Since(now, r.event) < KickDelay(cfg) then (r, Nothing) else (SetState(now, r, Kick), Nothing)
    case Kick =>
      (SetState(now, r.(kick := now), Idle), Deauth)
  }

  /** The roam pass looks at a client; `fit` if it is connected, weak and inactive. */
  function Examine(cfg: Config, now: nat, fit: bool, strong: bool, candidate: bool, r: Roaming): (Roaming, Act) {
    if !fit || Since(now, r.kick) < cfg.roamTriggerInterval then (SetState(now, r, Idle), Nothing)
    else TriggerSm(cfg, now, strong, candidate, r)
  }

  // ---------------------------------------------------------------- runs

  datatype Input =
    | Exam(at: nat, fit: bool, strong: bool, candidate: bool)
    | OtherKick(at: nat)
    | Heard(at: nat)

  function Next(cfg: Config, r: Roaming, i: Input): (Roaming, Act) {
    match i
    case Exam(at, fit, strong, candidate) => Examine(cfg, at, fit, strong, candidate, r)
    case OtherKick(at) => (r.(kick := at), Nothing)
    case Heard(at) => (r.(scanDone := at), Nothing)
  }

  /** What was put in, the states in between and what the machine did. */
  datatype Run = Run(ins: seq<Input>, rs: seq<Roaming>, acts: seq<Act>)

  ghost predicate Step(cfg: Config, run: Run, k: int)
    requires 0 <= k < |run.ins| == |run.acts| && |run.rs| == |run.ins| + 1
  {
    (run.rs[k + 1], run.acts[k]) == Next(cfg, run.rs[k], run.ins[k])
  }

  /** A run from a new entry on, in the order of time. */
  ghost predicate IsRun(cfg: Config, run: Run) {
    && |run.ins| == |run.acts| && |run.rs| == |run.ins| + 1
    && run.rs[0] == INITIAL
    && (forall k :: 0 <= k < |run.ins| ==> Step(cfg, run, k))
    && InTime(run.ins)
  }

  ghost predicate InTime(ins: seq<Input>) {
    forall i, j :: 0 <= i <= j < |ins| ==> ins[i].at <= ins[j].at
  }

  // The run that given inputs lead to.

  function StateAfter(cfg: Config, ins: seq<Input>): Roaming {
    if ins == [] then INITIAL
    else Next(cfg, StateAfter(cfg, ins[..|ins| - 1]), ins[|ins| - 1]).0
  }

  function ActOf(cfg: Config, ins: seq<Input>, k: int): Act
    requires 0 <= k < |ins|
  {
    Next(cfg, StateAfter(cfg, ins[..k]), ins[k]).1
  }

  function RunOf(cfg: Config, ins: seq<Input>): Run {
    Run(ins,
        seq(|ins| + 1, k requires 0 <= k <= |ins| => StateAfter(cfg, ins[..k])),
        seq(|ins|, k requires 0 <= k < |ins| => ActOf(cfg, ins, k)))
  }

  lemma RunOfIsRun(cfg: Config, ins: seq<Input>)
    requires InTime(ins)
    ensures IsRun(cfg, RunOf(cfg, ins))
  {
    var run := RunOf(cfg, ins);
    forall k | 0 <= k < |ins|
      ensures Step(cfg, run, k)
    {
      assert ins[..k + 1][..k] == ins[..k];
    }
  }

  /** The clock reading of the last input before `k`. */
  function Now(run: Run, k: nat): nat
    requires k <= |run.ins|
  {
    if k == 0 then 0 else run.ins[k - 1].at
  }

  ghost predicate Past(r: Roaming, now: nat) {
    r.event <= now && r.kick <= now && r.scanDone <= now
  }

  lemma StepIsPast(cfg: Config, run: Run, k: nat)
    requires IsRun(cfg, run) && k < |run.ins| && Past(run.rs[k], run.ins[k].at)
    ensures Past(run.rs[k + 1], run.ins[k].at)
    ensures run.rs[k].kick <= run.rs[k + 1].kick
    ensures run.acts[k] == Deauth || run.ins[k].OtherKick? ==> run.rs[k + 1].kick == run.ins[k].at
  {
    assert Step(cfg, run, k);
  }

  /** All recorded times are past. */
  lemma {:induction false} TimesArePast(cfg: Config, run: Run, k: nat)
    requires IsRun(cfg, run) && k <= |run.ins|
    ensures Past(run.rs[k], Now(run, k))
    ensures k < |run.ins| ==> Past(run.rs[k], run.ins[k].at)
  {
    if k > 0 {
      TimesArePast(cfg, run, k - 1);
      StepIsPast(cfg, run, k - 1);
    }
  }

  /** The recorded last kick is no earlier than any kick of the run. */
  lemma {:induction false} KickIsRemembered(cfg: Config, run: Run, i: nat, k: nat)
    requires IsRun(cfg, run) && i < k <= |run.ins|
    requires run.acts[i] == Deauth || run.ins[i].OtherKick?
    ensures run.ins[i].at <= run.rs[k].kick
  {
    if i < k - 1 {
      KickIsRemembered(cfg, run, i, k - 1);
    }
    TimesArePast(cfg, run, k - 1);
    StepIsPast(cfg, run, k - 1);
  }

  /** Not an examination that finds the client disconnected, strong, active or kicked too recently. */
  ghost predicate Fit(cfg: Config, run: Run, i: nat)
    requires i < |run.ins| < |run.rs|
  {
    run.ins[i].Exam? ==> run.ins[i].fit && Since(run.ins[i].at, run.rs[i].kick) >= cfg.roamTriggerInterval
  }

  /** Nothing unfit happens in `(j, k)`, and the client is told nothing. */
  ghost predicate Waiting(cfg: Config, run: Run, j: nat, k: nat)
    requires k <= |run.ins| == |run.acts| && |run.ins| < |run.rs|
  {
    forall i :: j < i < k ==> run.acts[i] == Nothing && Fit(cfg, run, i)
  }

  predicate Leaving(r: Roaming) {
    r.state.NotifyKick? || r.state.Kick?
  }

  lemma StepToLeaving(cfg: Config, run: Run, k: nat)
    requires IsRun(cfg, run) && k < |run.ins|
    requires Past(run.rs[k], run.ins[k].at) && Leaving(run.rs[k + 1])
    ensures Fit(cfg, run, k)
    ensures var r, r', act := run.rs[k], run.rs[k + 1], run.acts[k];
      if Leaving(r) then
        && act == Nothing
        && (r'.state == r.state ==> r'.event == r.event)
        && (r'.state != r.state ==> r.state.NotifyKick? && r.event + KickDelay(cfg) <= r'.event)
      else run.ins[k].Exam? && act == Notify && r'.state.NotifyKick? && r'.event == run.ins[k].at
  {
    assert Step(cfg, run, k);
  }

  /** A client being notified or about to be kicked got its notice at input `j`. */
  lemma {:induction false} NoticeOf(cfg: Config, run: Run, k: nat) returns (j: nat)
    requires IsRun(cfg, run) && k <= |run.ins| && Leaving(run.rs[k])
    ensures j < k && run.acts[j] == Notify && run.ins[j].Exam? && Fit(cfg, run, j)
    ensures Waiting(cfg, run, j, k)
    ensures var r := run.rs[k];
      if r.state.NotifyKick? then r.event == run.ins[j].at else r.event >= run.ins[j].at + KickDelay(cfg)
  {
    TimesArePast(cfg, run, k - 1);
    StepToLeaving(cfg, run, k - 1);
    if Leaving(run.rs[k - 1]) {
      j := NoticeOf(cfg, run, k - 1);
    } else {
      j := k - 1;
    }
  }

  lemma DeauthStep(cfg: Config, run: Run, k: nat)
    requires IsRun(cfg, run) && k < |run.ins| && run.acts[k] == Deauth
    ensures run.rs[k].state.Kick? && run.ins[k].Exam? && Fit(cfg, run, k)
  {
    assert Step(cfg, run, k);
  }

  /**
    Every kick of the machine comes at least the kick delay after a notice to the client,
    and no examination in between finds it disconnected, strong or active.
   */
  lemma KickFollowsNotice(cfg: Config, run: Run, k: nat) returns (j: nat)
    requires IsRun(cfg, run) && k < |run.ins| && run.acts[k] == Deauth
    ensures j < k && run.acts[j] == Notify && run.ins[j].Exam?
    ensures run.ins[j].at + KickDelay(cfg) <= run.ins[k].at
    ensures Waiting(cfg, run, j, k) && Fit(cfg, run, j) && Fit(cfg, run, k)
  {
    DeauthStep(cfg, run, k);
    j := NoticeOf(cfg, run, k);
    TimesArePast(cfg, run, k);
  }

  // Why a client is on its way to a kick.

  /** Examination `j` gave a client with a better access point and fresh scan results up on its own. */
  ghost predicate Steered(cfg: Config, run: Run, j: int)
    requires 0 <= j < |run.ins| < |run.rs|
  {
    var (r, i) := (run.rs[j], run.ins[j]);
    i.Exam? && i.candidate && r.state.ScanDone? && i.at <= r.scanDone + (2 * cfg.roamScanInterval) % 0x1_0000_0000
  }

  /** Examination `j` ended scanning without a better access point or fresh results, after the configured tries. */
  ghost predicate GaveUp(cfg: Config, run: Run, j: int)
    requires 0 <= j < |run.ins| < |run.rs|
  {
    var (r, i) := (run.rs[j], run.ins[j]);
    && i.Exam? && !i.candidate && r.state.Scan? && 0 < cfg.roamScanTries <= r.tries
    && r.scanDone <= r.event && r.event + cfg.roamScanInterval <= i.at
  }

  /** The client waits for its kick since examination `j`, which had a reason. */
  ghost predicate WaitingFor(cfg: Config, run: Run, j: int, k: int)
    requires 0 <= j < k <= |run.ins| < |run.rs|
  {
    && (Steered(cfg, run, j) || GaveUp(cfg, run, j)) && Fit(cfg, run, j)
    && forall i :: j < i <= k ==> run.rs[i].state.WaitKick?
  }

  lemma StepToWait(cfg: Config, run: Run, k: nat)
    requires IsRun(cfg, run) && k < |run.ins| && Past(run.rs[k], run.ins[k].at)
    requires run.rs[k + 1].state.WaitKick? && !run.rs[k].state.WaitKick?
    ensures (Steered(cfg, run, k) || GaveUp(cfg, run, k)) && Fit(cfg, run, k)
  {
    assert Step(cfg, run, k);
  }

  /** Nobody waits for a kick without a reason: a better access point, or that all scans were in vain. */
  lemma {:induction false} WaitingHasReason(cfg: Config, run: Run, k: nat) returns (j: nat)
    requires IsRun(cfg, run) && k <= |run.ins| && run.rs[k].state.WaitKick?
    ensures j < k && WaitingFor(cfg, run, j, k)
  {
    TimesArePast(cfg, run, k - 1);
    if run.rs[k - 1].state.WaitKick? {
      j := WaitingHasReason(cfg, run, k - 1);
    } else {
      StepToWait(cfg, run, k - 1);
      j := k - 1;
    }
  }

  /** A notice goes to a weak client only, and not without a reason. */
  lemma NoticeHasReason(cfg: Config, run: Run, k: nat) returns (j: nat)
    requires IsRun(cfg, run) && k < |run.ins| && run.acts[k] == Notify
    ensures run.ins[k].Exam? && !run.ins[k].strong && j < k && WaitingFor(cfg, run, j, k)
  {
    assert Step(cfg, run, k);
    j := WaitingHasReason(cfg, run, k);
  }

  /** And so does a kick: input `i` gave the reason, `j` the notice, both before it and the delay after the notice. */
  lemma KickHasReason(cfg: Config, run: Run, k: nat) returns (i: nat, j: nat)
    requires IsRun(cfg, run) && k < |run.ins| && run.acts[k] == Deauth
    ensures i < j < k && WaitingFor(cfg, run, i, j)
    ensures run.acts[j] == Notify && run.ins[j].Exam? && !run.ins[j].strong
    ensures run.ins[j].at + (cfg.roamKickDelay * 100) % 0x1_0000_0000 <= run.ins[k].at
  {
    j := KickFollowsNotice(cfg, run, k);
    i := NoticeHasReason(cfg, run, j);
  }

  /** A client counts as scanned only if it has a better access point, or was heard since it was last told to scan. */
  lemma ScanDoneHasReason(cfg: Config, run: Run, k: nat)
    requires IsRun(cfg, run) && k < |run.ins| && run.rs[k + 1].state.ScanDone? && !run.rs[k].state.ScanDone?
    ensures run.ins[k].Exam? && Fit(cfg, run, k)
    ensures run.rs[k].state.Idle? ==> run.ins[k].candidate
    ensures !run.rs[k].state.Idle? ==>
      && run.rs[k].state.Scan? && run.rs[k].event + cfg.roamScanInterval <= run.ins[k].at
      && (run.ins[k].candidate || run.rs[k].event < run.rs[k].scanDone)
  {
    TimesArePast(cfg, run, k);
    assert Step(cfg, run, k);
  }

  /** Exactly when a client is told to scan. */
  lemma ScanIsTriggered(cfg: Config, run: Run, k: nat)
    requires IsRun(cfg, run) && k < |run.ins|
    ensures var (r, i) := (run.rs[k], run.ins[k]);
      run.acts[k] == Trigger
      <==> && i.Exam? && Fit(cfg, run, k) && !i.candidate && r.state.Scan? && r.event + cfg.roamScanInterval <= i.at
           && r.scanDone <= r.event && (cfg.roamScanTries == 0 || r.tries < cfg.roamScanTries)
  {
    TimesArePast(cfg, run, k);
    assert Step(cfg, run, k);
  }

  /** A client found strong, active, disconnected or kicked lately is at rest again, whatever it was doing. */
  lemma UnfitRests(cfg: Config, run: Run, k: nat)
    requires IsRun(cfg, run) && k < |run.ins| && run.ins[k].Exam? && !Fit(cfg, run, k)
    ensures var r := run.rs[k];
      run.rs[k + 1] == Roaming(State.Idle, 0, run.ins[k].at, r.kick, r.scanDone) && run.acts[k] == Nothing
  {
    assert Step(cfg, run, k);
  }

  /** What a frame and a kick by another pass leave behind. */
  lemma OthersLeaveTheState(cfg: Config, run: Run, k: nat)
    requires IsRun(cfg, run) && k < |run.ins| && !run.ins[k].Exam?
    ensures var (r, r', i) := (run.rs[k], run.rs[k + 1], run.ins[k]);
      && run.acts[k] == Nothing && r'.state == r.state && r'.tries == r.tries && r'.event == r.event
      && r'.kick == (if i.OtherKick? then i.at else r.kick) && r'.scanDone == (if i.Heard? then i.at else r.scanDone)
  {
    assert Step(cfg, run, k);
  }

  /** Two kicks of one client by the machine are a trigger interval and a kick delay apart. */
  lemma KicksAreSpaced(cfg: Config, run: Run, i: nat, k: nat)
    requires IsRun(cfg, run) && i < k < |run.ins|
    requires run.acts[i] == Deauth && run.acts[k] == Deauth
    ensures run.ins[i].at + cfg.roamTriggerInterval + KickDelay(cfg) <= run.ins[k].at
  {
    var j := KickFollowsNotice(cfg, run, k);
    assert i < j;
    KickIsRemembered(cfg, run, i, j);
    TimesArePast(cfg, run, j);
  }

  /** After a kick by another pass the machine leaves the client alone for the trigger interval. */
  lemma OtherKicksRest(cfg: Config, run: Run, i: nat, k: nat)
    requires IsRun(cfg, run) && i < k < |run.ins| && run.ins[i].OtherKick? && run.acts[k] == Deauth
    ensures run.ins[i].at + cfg.roamTriggerInterval <= run.ins[k].at
  {
    KickIsRemembered(cfg, run, i, k);
    TimesArePast(cfg, run, k);
    DeauthStep(cfg, run, k);
  }

  // ---------------------------------------------------------------- scan tries

  /** How many of `acts` are scan triggers. */
  function Triggers(acts: seq<Act>): nat {
    if acts == [] then 0
    else Triggers(acts[..|acts| - 1]) + if acts[|acts| - 1] == Trigger then 1 else 0
  }

  /** Tries are counted in `Scan` only, and never beyond the configured number. */
  lemma {:induction false} TriesBounded(cfg: Config, run: Run, k: nat)
    requires 1 <= cfg.roamScanTries <= 255 && IsRun(cfg, run) && k <= |run.ins|
    ensures var r := run.rs[k]; r.tries <= cfg.roamScanTries && (r.tries != 0 ==> r.state.Scan?)
  {
    if k > 0 {
      TriesBounded(cfg, run, k - 1);
      assert Step(cfg, run, k - 1);
    }
  }

  /** The client is scanning after each of the inputs `[e, k)`, and was not before them. */
  ghost predicate ScanningSince(run: Run, e: nat, k: nat)
    requires k < |run.rs|
  {
    && e < k && !run.rs[e].state.Scan?
    && forall i :: e < i <= k ==> run.rs[i].state.Scan?
  }

  lemma StepScanning(cfg: Config, run: Run, k: nat)
    requires 1 <= cfg.roamScanTries <= 255 && IsRun(cfg, run) && k < |run.ins|
    requires Past(run.rs[k], run.ins[k].at) && run.rs[k + 1].state.Scan? && run.rs[k].tries <= cfg.roamScanTries
    ensures var r, r', act := run.rs[k], run.rs[k + 1], run.acts[k];
      if !r.state.Scan? then act != Trigger && r'.tries == 0 && r'.event == run.ins[k].at
      else if act == Trigger then r'.tries == r.tries + 1 && r.event + cfg.roamScanInterval <= r'.event
      else r'.tries == r.tries && r'.event == r.event
  {
    assert Step(cfg, run, k);
  }

  lemma StepToWaitKick(cfg: Config, run: Run, k: nat)
    requires IsRun(cfg, run) && k < |run.ins|
    requires Past(run.rs[k], run.ins[k].at) && run.rs[k].state.Scan? && run.rs[k + 1].state.WaitKick?
    ensures 0 < cfg.roamScanTries <= run.rs[k].tries && run.rs[k].event + cfg.roamScanInterval <= run.ins[k].at
  {
    assert Step(cfg, run, k);
  }

  lemma OneMore(n: nat, x: nat)
    ensures (n + 1) * x == n * x + x
  {
  }

  /** While scanning: since entering at input `e` each try was triggered and a scan interval long. */
  lemma {:induction false} ScanHistory(cfg: Config, run: Run, k: nat) returns (e: nat)
    requires 1 <= cfg.roamScanTries <= 255 && IsRun(cfg, run) && k <= |run.ins|
    requires run.rs[k].state.Scan?
    ensures ScanningSince(run, e, k)
    ensures Triggers(run.acts[e..k]) == run.rs[k].tries
    ensures run.ins[e].at + run.rs[k].tries * cfg.roamScanInterval <= run.rs[k].event
  {
    TimesArePast(cfg, run, k - 1);
    TriesBounded(cfg, run, k - 1);
    StepScanning(cfg, run, k - 1);
    if run.rs[k - 1].state.Scan? {
      e := ScanHistory(cfg, run, k - 1);
      OneMore(run.rs[k - 1].tries, cfg.roamScanInterval);
      assert run.acts[e..k][..k - e - 1] == run.acts[e..k - 1];
    } else {
      e := k - 1;
      assert run.acts[e..k][..0] == [];
    }
  }

  /** Giving up on scans takes exactly the configured number of triggers, and a scan interval for each and one more. */
  lemma GivingUpScans(cfg: Config, run: Run, k: nat) returns (e: nat)
    requires 1 <= cfg.roamScanTries <= 255 && IsRun(cfg, run) && k < |run.ins|
    requires run.rs[k].state.Scan? && run.rs[k + 1].state.WaitKick?
    ensures ScanningSince(run, e, k)
    ensures Triggers(run.acts[e..k]) == cfg.roamScanTries
    ensures run.ins[e].at + (cfg.roamScanTries + 1) * cfg.roamScanInterval <= run.ins[k].at
  {
    e := ScanHistory(cfg, run, k);
    TriesBounded(cfg, run, k);
    TimesArePast(cfg, run, k);
    StepToWaitKick(cfg, run, k);
    OneMore(cfg.roamScanTries, cfg.roamScanInterval);
  }

  lemma {:induction false} TriesAreAByte(cfg: Config, run: Run, k: nat)
    requires IsRun(cfg, run) && k <= |run.ins|
    ensures run.rs[k].tries < U8
  {
    if k > 0 {
      TriesAreAByte(cfg, run, k - 1);
      assert Step(cfg, run, k - 1);
    }
  }

  /** The documented range goes further, but a byte does not: above 255 tries (and at 0) scanning is never given up. */
  lemma TooManyTriesNeverGiveUp(cfg: Config, run: Run, k: nat)
    requires cfg.roamScanTries == 0 || 255 < cfg.roamScanTries
    requires IsRun(cfg, run) && k < |run.ins| && run.rs[k].state.Scan?
    ensures !run.rs[k + 1].state.WaitKick?
  {
    TriesAreAByte(cfg, run, k);
    assert Step(cfg, run, k);
  }

  // ---------------------------------------------------------------- progress

  /** Is the client kicked at or before `limit` when examined at the times `ats`? */
  ghost predicate KickedBy(cfg: Config, r: Roaming, ats: seq<nat>, limit: int)
    decreases |ats|
  {
    ats != [] &&
    var (r', act) := Examine(cfg, ats[0], true, false, false, r);
    (act == Deauth && ats[0] <= limit) || KickedBy(cfg, r', ats[1..], limit)
  }

  function Rows(n: nat, each: nat): nat {
    if n == 0 then 0 else each + Rows(n - 1, each)
  }

  lemma {:induction false} RowsAreProduct(n: nat, each: nat)
    ensures Rows(n, each) == n * each
  {
    if n > 0 {
      RowsAreProduct(n - 1, each);
    }
  }

  /** The latest time of the kick, seen from the state after an examination. */
  function Limit(cfg: Config, p: nat, r: Roaming): int {
    match r.state
    case Idle => 0
    case Scan =>
      var left := if r.tries <= cfg.roamScanTries then cfg.roamScanTries + 1 - r.tries else 0;
      r.event + Rows(left, cfg.roamScanInterval + p) + KickDelay(cfg) + 3 * p
    case ScanDone => 0
    case WaitKick => r.event + KickDelay(cfg) + 3 * p
    case NotifyKick => r.event + KickDelay(cfg) + 2 * p
    case Kick => r.event + p
  }

  /** The client was examined at `now` and is on its way. */
  ghost predicate Underway(cfg: Config, now: nat, r: Roaming) {
    && r.event <= now && r.kick + cfg.roamTriggerInterval <= now && r.scanDone <= r.event
    && match r.state
       case Scan => r.tries <= cfg.roamScanTries && (now == r.event || now < r.event + cfg.roamScanInterval)
       case WaitKick => now == r.event
       case NotifyKick => now == r.event || now < r.event + KickDelay(cfg)
       case Kick => now == r.event
       case _ => false
  }

  function Previous(now: nat, ats: seq<nat>, i: nat): nat
    requires i < |ats|
  {
    if i == 0 then now else ats[i - 1]
  }

  ghost predicate EveryP(now: nat, p: nat, ats: seq<nat>) {
    forall i :: 0 <= i < |ats| ==> Previous(now, ats, i) <= ats[i] <= Previous(now, ats, i) + p
  }

  /** One more examination kicks within the limit or moves on without raising it. */
  lemma ExaminationHelps(cfg: Config, p: nat, now: nat, at: nat, r: Roaming)
    requires 1 <= cfg.roamScanTries <= 255
    requires Underway(cfg, now, r) && now <= at <= now + p
    ensures var (r', act) := Examine(cfg, at, true, false, false, r);
      && at <= Limit(cfg, p, r)
      && (act == Deauth || (Underway(cfg, at, r') && Limit(cfg, p, r') <= Limit(cfg, p, r)))
  {
  }

  lemma {:induction false} ProgressFrom(cfg: Config, p: nat, now: nat, r: Roaming, ats: seq<nat>, limit: int)
    requires 1 <= cfg.roamScanTries <= 255
    requires Underway(cfg, now, r) && EveryP(now, p, ats) && Limit(cfg, p, r) <= limit
    requires limit < if ats == [] then now else ats[|ats| - 1]
    ensures KickedBy(cfg, r, ats, limit)
    decreases |ats|
  {
    if ats == [] {
      ExaminationHelps(cfg, p, now, now, r);
    } else {
      var at, rest := ats[0], ats[1..];
      ExaminationHelps(cfg, p, now, at, r);
      var (r', act) := Examine(cfg, at, true, false, false, r);
      if act != Deauth {
        assert forall i :: 0 <= i < |rest| ==> rest[i] == ats[i + 1];
        ProgressFrom(cfg, p, at, r', rest, limit);
      }
    }
  }

  /**
    An idle, weak, inactive client past its trigger interval, without a better access point and
    examined at least every `p` ms from `t0` on, is kicked within the stated time.
   */
  lemma BoundedProgress(cfg: Config, p: nat, t0: nat, r: Roaming, ats: seq<nat>)
    requires 1 <= cfg.roamScanTries <= 255
    requires r.state.Idle? && r.kick + cfg.roamTriggerInterval <= t0 && r.scanDone <= t0
    requires ats != [] && ats[0] == t0 && EveryP(t0, p, ats)
    requires t0 + (cfg.roamScanTries + 1) * (cfg.roamScanInterval + p) + KickDelay(cfg) + 3 * p < ats[|ats| - 1]
    ensures KickedBy(cfg, r, ats, t0 + (cfg.roamScanTries + 1) * (cfg.roamScanInterval + p) + KickDelay(cfg) + 3 * p)
  {
    RowsAreProduct(cfg.roamScanTries + 1, cfg.roamScanInterval + p);
    ProgressFromIdle(cfg, p, t0, r, ats,
                     t0 + Rows(cfg.roamScanTries + 1, cfg.roamScanInterval + p) + KickDelay(cfg) + 3 * p);
  }

  lemma ProgressFromIdle(cfg: Config, p: nat, t0: nat, r: Roaming, ats: seq<nat>, limit: int)
    requires 1 <= cfg.roamScanTries <= 255
    requires r.state.Idle? && r.kick + cfg.roamTriggerInterval <= t0 && r.scanDone <= t0
    requires ats != [] && ats[0] == t0 && EveryP(t0, p, ats)
    requires limit == t0 + Rows(cfg.roamScanTries + 1, cfg.roamScanInterval + p) + KickDelay(cfg) + 3 * p < ats[|ats| - 1]
    ensures KickedBy(cfg, r, ats, limit)
  {
    var rest := ats[1..];
    assert forall i :: 0 <= i < |rest| ==> rest[i] == ats[i + 1];
    var (r', act) := Examine(cfg, t0, true, false, false, r);
    ProgressFrom(cfg, p, t0, r', rest, limit);
  }

  // A better access point does not always help.

  predicate Scanning(r: Roaming) {
    r.state.Idle? || r.state.Scan? || r.state.ScanDone?
  }

  /**
    A client that is at most scanning, has a candidate and is not heard of any more: once its
    scan results are stale, no number of examinations ever tells it anything.
   */
  lemma {:induction false} StaleScansLoop(cfg: Config, run: Run, m: nat, k: nat)
    requires IsRun(cfg, run) && m <= k <= |run.ins| && Scanning(run.rs[m])
    requires forall i :: m <= i < k ==>
      run.ins[i].Exam? && run.ins[i].candidate && run.rs[m].scanDone + StaleAfter(cfg) < run.ins[i].at
    ensures Scanning(run.rs[k]) && run.rs[k].scanDone == run.rs[m].scanDone
    ensures forall i :: m <= i < k ==> run.acts[i] == Nothing
  {
    if k > m {
      StaleScansLoop(cfg, run, m, k - 1);
      assert Step(cfg, run, k - 1);
    }
  }

  /**
    And if it stays weak and inactive, and is examined no more often than once a scan interval, it goes
    back and forth between scanning and having scanned, for ever.
   */
  lemma {:induction false} StaleScansAlternate(cfg: Config, run: Run, m: nat, k: nat)
    requires IsRun(cfg, run) && m < k <= |run.ins| && Scanning(run.rs[m])
    requires forall i :: m <= i < k ==>
      && run.ins[i].Exam? && run.ins[i].candidate && run.rs[m].scanDone + StaleAfter(cfg) < run.ins[i].at
      && Fit(cfg, run, i)
    requires forall i :: m < i < k ==> run.ins[i - 1].at + cfg.roamScanInterval <= run.ins[i].at
    requires run.rs[m].event + cfg.roamScanInterval <= run.ins[m].at
    ensures run.rs[k].state == (if (k - m) % 2 == (if run.rs[m].state.ScanDone? then 0 else 1) then ScanDone else Scan)
    ensures run.rs[k].event == run.ins[k - 1].at
  {
    hide StaleAfter;
    if k > m + 1 {
      StaleScansAlternate(cfg, run, m, k - 1);
    }
    StaleScansLoop(cfg, run, m, k - 1);
    TimesArePast(cfg, run, k - 1);
    StaleStep(cfg, run, k - 1);
  }

  lemma StaleStep(cfg: Config, run: Run, k: nat)
    requires IsRun(cfg, run) && k < |run.ins| && Scanning(run.rs[k]) && Past(run.rs[k], run.ins[k].at)
    requires run.ins[k].Exam? && run.ins[k].candidate && Fit(cfg, run, k)
    requires run.rs[k].scanDone + StaleAfter(cfg) < run.ins[k].at
    requires run.rs[k].event + cfg.roamScanInterval <= run.ins[k].at
    ensures run.rs[k + 1].state == (if run.rs[k].state.ScanDone? then Scan else ScanDone)
    ensures run.rs[k + 1].event == run.ins[k].at
  {
    assert Step(cfg, run, k);
  }

  /** While the results are fresh it does get its notice: two examinations later, if it is still weak. */
  lemma FreshScanLeadsOn(cfg: Config, run: Run, k: nat)
    requires IsRun(cfg, run) && k + 1 < |run.ins| && run.rs[k].state.ScanDone?
    requires run.ins[k].Exam? && run.ins[k + 1].Exam? && Fit(cfg, run, k) && Fit(cfg, run, k + 1)
    requires run.ins[k].candidate && !run.ins[k + 1].strong
    ensures run.acts[k + 1] == Notify <==> Since(run.ins[k].at, run.rs[k].scanDone) <= StaleAfter(cfg)
  {
    assert Step(cfg, run, k) && Step(cfg, run, k + 1);
  }
}
