/**
  How often the requests of a station may be refused in a row.
 */
module Blocking {
  import opened Types
  import opened Arithmetic
  import opened Stations

  /** Has the time since the last refusal run out?  The difference is taken the wrong way round, in 32 bits. */
  predicate BlockTimedOut(cfg: Config, now: nat, s: Stats) {
    (s.blockedLastTime - now) % U32 > cfg.staBlockTimeout
  }

  /** The statistics when a request has come in. */
  function Requested(cfg: Config, now: nat, s: Stats): Stats {
    s.(requests := (s.requests + 1) % U32,
       blockedCur := if BlockTimedOut(cfg, now, s) then 0 else s.blockedCur)
  }

  /** The statistics when it has been decided. */
  function Decided(now: nat, s: Stats, ok: bool): Stats {
    if ok then s.(blockedCur := 0)
    else s.(blockedCur := (s.blockedCur + 1) % U32,
            blockedTotal := (s.blockedTotal + 1) % U32,
            blockedLastTime := now % U32)
  }

  lemma {:induction false} Reversed(last: nat, e: nat)
    requires last < U32 && e < U32
    ensures (last - (last + e)) % U32 == if e == 0 then 0 else U32 - e
  {
  }

  /**
    For the elapsed time `e` since a refusal: what the code tests, and exactly when
    that agrees with `e` exceeding the timeout.
   */
  lemma {:induction false} BlockTimeoutAgrees(cfg: Config, s: Stats, e: nat)
    requires s.blockedLastTime < U32 && e < U32
    ensures BlockTimedOut(cfg, s.blockedLastTime + e, s) <==> 0 < e < U32 - cfg.staBlockTimeout
    ensures (BlockTimedOut(cfg, s.blockedLastTime + e, s) <==> e > cfg.staBlockTimeout)
       <==> if e <= cfg.staBlockTimeout then e == 0 || U32 - cfg.staBlockTimeout <= e
            else e < U32 - cfg.staBlockTimeout
  {
    Reversed(s.blockedLastTime, e);
  }

  /** With the default timeout, one millisecond is enough to forget a refusal. */
  lemma {:induction false} ForgottenAtOnce(cfg: Config, s: Stats)
    requires cfg.staBlockTimeout == 30000 && s.blockedLastTime < U32
    ensures BlockTimedOut(cfg, s.blockedLastTime + 1, s)
  {
    BlockTimeoutAgrees(cfg, s, 1);
  }

  /** A request at time `at` that the policy would refuse or not. */
  datatype Try = Try(at: nat, refuse: bool)

  function Answer(cfg: Config, s: Stats, t: Try): (Stats, bool) {
    var s1 := Requested(cfg, t.at, s);
    var ok := s1.blockedCur >= cfg.maxRetryBand || !t.refuse;
    (Decided(t.at, s1, ok), ok)
  }

  function After(cfg: Config, s: Stats, ts: seq<Try>): Stats {
    if ts == [] then s else Answer(cfg, After(cfg, s, ts[..|ts| - 1]), ts[|ts| - 1]).0
  }

  /** Is a refusal at `last` forgotten when the next request comes at `now`? */
  predicate Forgets(cfg: Config, last: nat, now: nat) {
    (last - now) % U32 > cfg.staBlockTimeout
  }

  /** In terms of the time between the two, which counts modulo 2^32 milliseconds. */
  lemma {:induction false} ForgetsMeaning(cfg: Config, last: nat, now: nat)
    requires last <= now
    ensures Forgets(cfg, last, now) <==> 0 < (now - last) % U32 < U32 - cfg.staBlockTimeout
  {
    var q := (now - last) / U32;
    Reversed(0, (now - last) % U32);
    ModShift(last - now, q);
  }

  lemma {:induction false} ForgottenInStats(cfg: Config, s: Stats, last: nat, now: nat)
    requires s.blockedLastTime == last % U32
    ensures BlockTimedOut(cfg, now, s) <==> Forgets(cfg, last, now)
  {
    ModShift(last % U32 - now, last / U32);
  }

  /**
    How many requests the policy would refuse, up to the k-th and including it, have come in a row:
    with none in between that the policy would answer, and none that came late enough to forget the last.
   */
  function Row(cfg: Config, ts: seq<Try>, k: nat): nat
    requires k < |ts|
  {
    1 + if k == 0 || !ts[k - 1].refuse || Forgets(cfg, ts[k - 1].at, ts[k].at) then 0 else Row(cfg, ts, k - 1)
  }

  /** One more request: counted on from `c` refusals in a row. */
  lemma {:induction false} AnswerCounts(cfg: Config, s: Stats, t: Try, c: nat)
    requires cfg.maxRetryBand < U32 && c <= cfg.maxRetryBand
    requires (if BlockTimedOut(cfg, t.at, s) then 0 else s.blockedCur) == c
    ensures var (s', ok) := Answer(cfg, s, t);
      && (ok <==> !t.refuse || c == cfg.maxRetryBand)
      && s'.blockedCur == (if ok then 0 else c + 1)
      && (!ok ==> s'.blockedLastTime == t.at % U32)
  {
  }

  /**
    For any run of requests: one that the policy would refuse is answered exactly when it is the
    (limit + 1)-th in its row, or a multiple of that.
   */
  lemma {:induction false} RetryLimit(cfg: Config, s0: Stats, ts: seq<Try>, k: nat)
    requires cfg.maxRetryBand < U32 && s0.blockedCur == 0 && k < |ts|
    ensures Answer(cfg, After(cfg, s0, ts[..k]), ts[k]).1
       <==> !ts[k].refuse || Row(cfg, ts, k) % (cfg.maxRetryBand + 1) == 0
    ensures var s := After(cfg, s0, ts[..k + 1]);
      && s.blockedCur == (if ts[k].refuse then Row(cfg, ts, k) % (cfg.maxRetryBand + 1) else 0)
      && (s.blockedCur > 0 ==> s.blockedLastTime == ts[k].at % U32)
  {
    hide Forgets, BlockTimedOut;
    assert ts[..k + 1][..k] == ts[..k];
    var (s, m) := (After(cfg, s0, ts[..k]), cfg.maxRetryBand);
    var c := 0;
    RemainderStep(0, m);
    if k > 0 {
      RetryLimit(cfg, s0, ts, k - 1);
      RemainderStep(Row(cfg, ts, k - 1), m);
      if s.blockedCur > 0 {
        ForgottenInStats(cfg, s, ts[k - 1].at, ts[k].at);
        if !Forgets(cfg, ts[k - 1].at, ts[k].at) {
          c := s.blockedCur;
        }
      }
    }
    AnswerCounts(cfg, s, ts[k], c);
  }

  function Refusals(cfg: Config, s: Stats, ts: seq<Try>): nat {
    if ts == [] then 0
    else
      var front := ts[..|ts| - 1];
      Refusals(cfg, s, front) + if Answer(cfg, After(cfg, s, front), ts[|ts| - 1]).1 then 0 else 1
  }

  /** The other two counters are what they are called, in 32 bits. */
  lemma {:induction false} CountersCount(cfg: Config, ts: seq<Try>)
    ensures After(cfg, NO_STATS, ts).requests == |ts| % U32
    ensures After(cfg, NO_STATS, ts).blockedTotal == Refusals(cfg, NO_STATS, ts) % U32
  {
    if ts != [] {
      var front := ts[..|ts| - 1];
      CountersCount(cfg, front);
      RemainderSum(|front|, 1, U32);
      RemainderSum(Refusals(cfg, NO_STATS, front), 1, U32);
    }
  }

  /** The tries `from`, ..., `to` would be refused, and none of them forgets the one before. */
  ghost predicate InARow(cfg: Config, ts: seq<Try>, from: int, to: int) {
    && 0 <= from <= to < |ts|
    && (forall i :: from <= i <= to ==> ts[i].refuse)
    && (forall i :: from < i <= to ==> !Forgets(cfg, ts[i - 1].at, ts[i].at))
  }

  lemma {:induction false} RowIsInARow(cfg: Config, ts: seq<Try>, k: nat)
    requires k < |ts| && ts[k].refuse
    ensures var n := Row(cfg, ts, k); 1 <= n <= k + 1 && InARow(cfg, ts, k - n + 1, k)
  {
    hide Forgets;
    if k > 0 && ts[k - 1].refuse && !Forgets(cfg, ts[k - 1].at, ts[k].at) {
      RowIsInARow(cfg, ts, k - 1);
    }
  }

  lemma {:induction false} RowGrowsTo(cfg: Config, ts: seq<Try>, from: nat, to: nat) returns (k: nat)
    requires InARow(cfg, ts, from, to)
    ensures from <= k <= to && Row(cfg, ts, k) % (to - from + 1) == 0
  {
    hide Forgets;
    var more := NextMultiple(Row(cfg, ts, from), to - from + 1);
    k := from + more;
    RowOnFrom(cfg, ts, from, k);
  }

  lemma {:induction false} RowOnFrom(cfg: Config, ts: seq<Try>, from: nat, k: nat)
    requires InARow(cfg, ts, from, k)
    ensures Row(cfg, ts, k) == Row(cfg, ts, from) + (k - from)
  {
    hide Forgets;
    if k > from {
      RowOnFrom(cfg, ts, from, k - 1);
    }
  }

  /** Is some request answered although the policy would refuse it? */
  ghost predicate LimitReached(cfg: Config, s0: Stats, ts: seq<Try>) {
    exists k :: 0 <= k < |ts| && ts[k].refuse && Answer(cfg, After(cfg, s0, ts[..k]), ts[k]).1
  }

  lemma {:induction false} AnswerNeedsRow(cfg: Config, s0: Stats, ts: seq<Try>, k: nat)
    requires cfg.maxRetryBand < U32 && s0.blockedCur == 0 && k < |ts| && ts[k].refuse
    requires Answer(cfg, After(cfg, s0, ts[..k]), ts[k]).1
    ensures InARow(cfg, ts, k - cfg.maxRetryBand, k)
  {
    hide Answer, After, Forgets, Row;
    RetryLimit(cfg, s0, ts, k);
    RowIsInARow(cfg, ts, k);
    var (n, m) := (Row(cfg, ts, k), cfg.maxRetryBand);
    if n < m + 1 {
      UniqueRemainder(n, m + 1, 0, n);
    }
  }

  /**
    The retry limit comes into effect in a run exactly when one more request than the limit come in
    a row, each in the same millisecond as the one before or later by 2^32 ms less the timeout at least.
   */
  lemma {:induction false} LimitReachedExactly(cfg: Config, s0: Stats, ts: seq<Try>)
    requires cfg.maxRetryBand < U32 && s0.blockedCur == 0
    ensures LimitReached(cfg, s0, ts) <==> exists from, to :: InARow(cfg, ts, from, to) && to - from == cfg.maxRetryBand
  {
    hide Answer, After, InARow;
    if LimitReached(cfg, s0, ts) {
      var k :| 0 <= k < |ts| && ts[k].refuse && Answer(cfg, After(cfg, s0, ts[..k]), ts[k]).1;
      AnswerNeedsRow(cfg, s0, ts, k);
    }
    if from, to :| InARow(cfg, ts, from, to) && to - from == cfg.maxRetryBand {
      RowReachesLimit(cfg, s0, ts, from, to);
    }
  }

  lemma {:induction false} RowReachesLimit(cfg: Config, s0: Stats, ts: seq<Try>, from: int, to: int)
    requires cfg.maxRetryBand < U32 && s0.blockedCur == 0
    requires InARow(cfg, ts, from, to) && to - from == cfg.maxRetryBand
    ensures LimitReached(cfg, s0, ts)
  {
    hide Answer, After, Forgets, Row;
    var k := RowGrowsTo(cfg, ts, from, to);
    RetryLimit(cfg, s0, ts, k);
  }

  /** So requests at different times, however many, are refused for ever: the limit is never reached. */
  lemma {:induction false} RefusedForEver(cfg: Config, ts: seq<Try>, k: nat)
    requires 1 <= cfg.maxRetryBand < U32 && k < |ts|
    requires forall i :: 0 <= i < |ts| ==> ts[i].refuse
    requires forall i :: 0 < i < |ts| ==> 0 < ts[i].at - ts[i - 1].at < U32 - cfg.staBlockTimeout
    ensures !Answer(cfg, After(cfg, NO_STATS, ts[..k]), ts[k]).1
    ensures var s := After(cfg, NO_STATS, ts[..k + 1]); s.blockedCur <= 1 && s.blockedLastTime == ts[k].at % U32
  {
    hide Answer, Forgets;
    if k > 0 {
      ForgetsMeaning(cfg, ts[k - 1].at, ts[k].at);
    }
    RetryLimit(cfg, NO_STATS, ts, k);
    UniqueRemainder(1, cfg.maxRetryBand + 1, 0, 1);
  }

  /** In one and the same millisecond the limit works: so many refusals, then an answer, and so on. */
  lemma {:induction false} BurstIsAnswered(cfg: Config, s: Stats, t: nat, ts: seq<Try>, k: nat)
    requires cfg.maxRetryBand < U32 && s.blockedCur == 0 && k < |ts|
    requires forall i :: 0 <= i < |ts| ==> ts[i] == Try(t, true)
    ensures Answer(cfg, After(cfg, s, ts[..k]), ts[k]).1 <==> (k + 1) % (cfg.maxRetryBand + 1) == 0
    ensures var s' := After(cfg, s, ts[..k + 1]);
      && s'.blockedCur == (k + 1) % (cfg.maxRetryBand + 1)
      && (s'.blockedCur > 0 ==> s'.blockedLastTime == t % U32)
  {
    hide Answer, Forgets;
    ForgetsMeaning(cfg, t, t);
    assert InARow(cfg, ts, 0, k);
    RowOnFrom(cfg, ts, 0, k);
    RetryLimit(cfg, s, ts, k);
  }
}
