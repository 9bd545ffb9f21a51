/** The outage detector (internal/metrics/detector.go): per-target sliding
    windows of ping samples, window statistics, the three-criterion
    degradation test, and the episode state machine with hysteresis.

    Timestamps are integer nanoseconds, RTTs are integer milliseconds (what
    the ping producer emits), loss and mean RTT are exact reals. */
module Detector {
  import opened Options
  import opened Text

  const LossThresholdPct: real := 5.0
  const RttP95ThresholdMs: int := 200
  const ConsecutiveFailThresh: int := 3

  const NanosPerSecond: int := 1_000_000_000
  const NanosPerMilli: int := 1_000_000

  datatype PingSample = PingSample(ts: int, ok: bool, rtt: int)

  datatype WindowStats = WindowStats(lossPct: real, rttP95: int, rttAvg: real)

  /** The closed set of domain events the detector returns. */
  datatype Event =
    | OutageStart(target: string, outageId: string, reason: string,
                  lossPct: real, rttP95Ms: int, consecutiveFailures: nat)
    | OutageEnd(target: string, outageId: string, reason: string,
                lossPct: real, rttP95Ms: int, consecutiveFailures: nat)
    | OutageSummary(target: string, outageId: string, startTs: int, endTs: int, durationMs: int,
                    lossPctMax: real, rttP95MaxMs: int, rttAvgMaxMs: real, consecutiveFailMax: nat,
                    pingSent: nat, pingRecv: nat, dnsErrors: nat, tracerouteCount: nat)

  /** Everything the detector remembers about one target. */
  datatype TargetState = TargetState(
    windowSamples: seq<PingSample>,
    consecFail: nat,
    inOutage: bool,
    outageId: string,
    outageStart: int,
    clearSince: Option<int>,
    lossPctMax: real,
    rttP95MaxMs: int,
    rttAvgMaxMs: real,
    consecFailMax: nat,
    pingSent: nat,
    pingRecv: nat,
    dnsErrors: nat,
    tracerouteCount: nat)

  /** The zero value `&targetState{}` that `stateFor` creates for an unseen target. */
  const ZeroState := TargetState([], 0, false, "", 0, None, 0.0, 0, 0.0, 0, 0, 0, 0, 0)

  /** The state `stateFor` hands out: the stored one, or a fresh zero state
      for an unseen target. Either way it keeps the state invariant when the
      map does. */
  function StateFor(states: map<string, TargetState>, target: string): (s: TargetState)
    ensures target in states ==> s == states[target]
    ensures target !in states ==> s.windowSamples == [] && s.consecFail == 0 && !s.inOutage && s.pingSent == 0
    ensures AllInv(states) ==> StateInv(s)
  {
    if target in states then states[target] else ZeroState
  }

  /** What holds of every stored target state between calls. */
  predicate StateInv(s: TargetState) {
    && s.pingRecv <= s.pingSent
    && (s.inOutage ==> s.outageId != "" && s.consecFail <= s.consecFailMax)
    && (!s.inOutage ==> s.outageId == "" && s.clearSince == None)
  }

  // ------------------------------------------------------------ the window

  /** The window after pruning: the leading samples older than `cutoff` are dropped. */
  function Prune(samples: seq<PingSample>, cutoff: int): seq<PingSample> {
    if |samples| > 0 && samples[0].ts < cutoff then Prune(samples[1..], cutoff) else samples
  }

  /** Pruning keeps a suffix: exactly the leading run of samples strictly older
      than the cutoff goes, and the first kept sample is at or after it. */
  lemma {:induction false} PruneDropsLeadingRun(samples: seq<PingSample>, cutoff: int)
    ensures var r := Prune(samples, cutoff);
      && |r| <= |samples| && r == samples[|samples| - |r|..]
      && (forall j :: 0 <= j < |samples| - |r| ==> samples[j].ts < cutoff)
      && (r != [] ==> r[0].ts >= cutoff)
      && (samples != [] && samples[|samples| - 1].ts >= cutoff ==> r != [] && r[|r| - 1] == samples[|samples| - 1])
  {
    if |samples| > 0 && samples[0].ts < cutoff {
      PruneDropsLeadingRun(samples[1..], cutoff);
      var r := Prune(samples, cutoff);
      assert samples[1..][|samples| - 1 - |r|..] == samples[|samples| - |r|..];
      forall j | 0 <= j < |samples| - |r| ensures samples[j].ts < cutoff {
        if j > 0 { assert samples[j] == samples[1..][j - 1]; }
      }
    }
  }

  /** With a non-negative window the sample just appended is never pruned. */
  lemma PruneKeepsNewest(samples: seq<PingSample>, s: PingSample, windowNs: int)
    requires windowNs >= 0
    ensures var r := Prune(samples + [s], s.ts - windowNs);
      r != [] && r[|r| - 1] == s
  {
    var all := samples + [s];
    PruneDropsLeadingRun(all, s.ts - windowNs);
  }

  /** `pruneWindow`: advance `idx` over the leading samples older than
      `now - window`, keep the rest. */
  method PruneWindow(samples: seq<PingSample>, now: int, windowNs: int) returns (r: seq<PingSample>)
    ensures r == Prune(samples, now - windowNs)
  {
    var cutoff := now - windowNs;
    var idx := 0;
    while idx < |samples|
      invariant 0 <= idx <= |samples|
      invariant Prune(samples[idx..], cutoff) == Prune(samples, cutoff)
    {
      if samples[idx].ts >= cutoff {
        break;
      }
      assert samples[idx..][1..] == samples[idx + 1..];
      idx := idx + 1;
    }
    if idx == 0 {
      return samples;
    }
    return samples[idx..];
  }

  // ------------------------------------------------------------ statistics

  /** The RTTs of the successful samples, in window order. */
  function SuccessRtts(samples: seq<PingSample>): (r: seq<int>)
    ensures |r| <= |samples|
  {
    if samples == [] then []
    else
      var last := samples[|samples| - 1];
      SuccessRtts(samples[..|samples| - 1]) + (if last.ok then [last.rtt] else [])
  }

  function Sum(xs: seq<int>): int {
    if xs == [] then 0 else Sum(xs[..|xs| - 1]) + xs[|xs| - 1]
  }

  function Min(xs: seq<int>): (m: int)
    requires xs != []
    ensures m in xs && forall i :: 0 <= i < |xs| ==> m <= xs[i]
  {
    if |xs| == 1 then xs[0]
    else var m := Min(xs[1..]); if xs[0] <= m then xs[0] else m
  }

  function Max(xs: seq<int>): (m: int)
    requires xs != []
    ensures m in xs && forall i :: 0 <= i < |xs| ==> xs[i] <= m
  {
    if |xs| == 1 then xs[0]
    else var m := Max(xs[1..]); if xs[0] >= m then xs[0] else m
  }

  predicate SortedAsc(xs: seq<int>) {
    forall i, j :: 0 <= i < j < |xs| ==> xs[i] <= xs[j]
  }

  /** Insertion of `x` before the first element that is not below it. */
  function Insert(x: int, xs: seq<int>): (r: seq<int>)
    ensures |r| == |xs| + 1
  {
    if xs == [] || x <= xs[0] then [x] + xs else [xs[0]] + Insert(x, xs[1..])
  }

  /** Inserting into an ascending sequence keeps it ascending and adds
      exactly `x`. */
  lemma {:induction false} InsertSorted(x: int, xs: seq<int>)
    requires SortedAsc(xs)
    ensures SortedAsc(Insert(x, xs)) && multiset(Insert(x, xs)) == multiset(xs) + multiset{x}
  {
    if xs == [] || x <= xs[0] {
      ConsSorted(x, xs);
    } else {
      var tail := xs[1..];
      assert xs == [xs[0]] + tail;
      assert forall k :: 0 <= k < |tail| ==> tail[k] == xs[k + 1];
      InsertSorted(x, tail);
      var rest := Insert(x, tail);
      HeadBelowRest(xs[0], tail, x, rest);
      ConsSorted(xs[0], rest);
    }
  }

  /** A value below every element of a sorted sequence may be put in front. */
  lemma ConsSorted(h: int, xs: seq<int>)
    requires SortedAsc(xs) && forall k :: 0 <= k < |xs| ==> h <= xs[k]
    ensures SortedAsc([h] + xs)
  {
    var r := [h] + xs;
    forall i, j | 0 <= i < j < |r|
      ensures r[i] <= r[j]
    {
      assert r[j] == xs[j - 1];
      if i > 0 {
        assert r[i] == xs[i - 1];
      }
    }
  }

  /** A value below every element of a sorted tail and below `x` is below
      every element of any rearrangement of the tail and `x`. */
  lemma HeadBelowRest(h: int, tail: seq<int>, x: int, rest: seq<int>)
    requires forall k :: 0 <= k < |tail| ==> h <= tail[k]
    requires h < x && multiset(rest) == multiset(tail) + multiset{x}
    ensures forall k :: 0 <= k < |rest| ==> h <= rest[k]
  {
    forall k | 0 <= k < |rest|
      ensures h <= rest[k]
    {
      assert rest[k] in multiset(rest);
      if rest[k] != x {
        assert rest[k] in multiset(tail);
        assert rest[k] in tail;
      }
    }
  }

  /** The ascending sort `sort.Float64s` performs, as a function of its input. */
  function Sort(xs: seq<int>): (r: seq<int>)
    ensures |r| == |xs|
  {
    if xs == [] then [] else Insert(xs[0], Sort(xs[1..]))
  }

  /** `Sort` returns an ascending permutation of its input. */
  lemma {:induction false} SortSorted(xs: seq<int>)
    ensures SortedAsc(Sort(xs)) && multiset(Sort(xs)) == multiset(xs)
  {
    if xs != [] {
      SortSorted(xs[1..]);
      InsertSorted(xs[0], Sort(xs[1..]));
      assert xs == [xs[0]] + xs[1..];
    }
  }

  /** The nearest-rank index `int(float64(n-1) * 0.95)`, in integer arithmetic. */
  function P95Index(n: nat): (i: nat)
    requires n > 0
    ensures i < n
  {
    (n - 1) * 95 / 100
  }

  /** `computeStats` as a function of the window. */
  function Stats(samples: seq<PingSample>): WindowStats {
    if |samples| == 0 then WindowStats(0.0, 0, 0.0)
    else
      var rtts := SuccessRtts(samples);
      WindowStats(LossOf(|rtts|, |samples|), P95(rtts), Mean(rtts))
  }

  /** The nearest-rank 95th percentile of the successful RTTs, 0 without any. */
  function P95(rtts: seq<int>): int {
    if rtts == [] then 0 else Sort(rtts)[P95Index(|rtts|)]
  }

  /** The mean of the successful RTTs, 0 without any. */
  function Mean(rtts: seq<int>): real {
    if rtts == [] then 0.0 else Sum(rtts) as real / |rtts| as real
  }

  lemma {:induction false} SumBounds(xs: seq<int>, lo: int, hi: int)
    requires forall i :: 0 <= i < |xs| ==> lo <= xs[i] <= hi
    ensures |xs| * lo <= Sum(xs) <= |xs| * hi
  {
    if xs != [] {
      var ys := xs[..|xs| - 1];
      assert forall i :: 0 <= i < |ys| ==> ys[i] == xs[i];
      SumBounds(ys, lo, hi);
      assert Sum(xs) == Sum(ys) + xs[|xs| - 1];
      assert |xs| * lo == |ys| * lo + lo && |xs| * hi == |ys| * hi + hi;
    }
  }

  lemma MeanBetween(sum: int, n: nat, lo: int, hi: int)
    requires n > 0 && n * lo <= sum <= n * hi
    ensures lo as real <= sum as real / n as real <= hi as real
  {
    assert (n * lo) as real == n as real * lo as real;
    assert (n * hi) as real == n as real * hi as real;
  }

  /** The loss percentage of `sent` pings of which `recv` came back. */
  function LossOf(recv: nat, sent: nat): real
    requires 0 < sent
  {
    (1.0 - (recv as real / sent as real)) * 100.0
  }

  lemma LossBounds(recv: nat, sent: nat)
    requires 0 < sent && recv <= sent
    ensures var loss := LossOf(recv, sent);
      && 0.0 <= loss <= 100.0
      && loss == 100.0 * (sent - recv) as real / sent as real
      && (loss >= LossThresholdPct <==> 100 * (sent - recv) >= 5 * sent)
  {
    var S, R := sent as real, recv as real;
    var x := 100.0 * (sent - recv) as real;
    var loss := (1.0 - R / S) * 100.0;
    OneMinusRatio(R, S);
    assert loss == x / S;
    DivBetween(x, S, 0.0, 100.0);
    DivAtLeast(x, S, 5.0);
    assert x >= 5.0 * S <==> 100 * (sent - recv) >= 5 * sent;
  }

  /** `(1 - r/s)·100 = 100·(s - r)/s` for a positive `s`. */
  lemma OneMinusRatio(r: real, s: real)
    requires s > 0.0
    ensures (1.0 - r / s) * 100.0 == 100.0 * (s - r) / s
  {
    var q, y := r / s, (s - r) / s;
    assert q * s == r && y * s == s - r;
    var d := y - (1.0 - q);
    assert d * s == 0.0;
    assert d == (d * s) / s == 0.0 / s == 0.0;
    assert y == 1.0 - q;
    assert 100.0 * (s - r) / s == 100.0 * y;
  }

  /** Dividing by a positive `s` keeps a value between `lo·s` and `hi·s`
      between `lo` and `hi`. */
  lemma DivBetween(x: real, s: real, lo: real, hi: real)
    requires s > 0.0 && lo * s <= x <= hi * s
    ensures lo <= x / s <= hi
  {
    DivAtLeast(x, s, lo);
    DivAtMost(x, s, hi);
  }

  lemma DivAtLeast(x: real, s: real, c: real)
    requires s > 0.0
    ensures x / s >= c <==> x >= c * s
  {
    var y := x / s;
    assert y * s == x;
    if y >= c {
      assert (y - c) * s >= 0.0;
    } else {
      assert (c - y) * s > 0.0;
    }
  }

  lemma DivAtMost(x: real, s: real, c: real)
    requires s > 0.0
    ensures x / s <= c <==> x <= c * s
  {
    var y := x / s;
    assert y * s == x;
    if y <= c {
      assert (c - y) * s >= 0.0;
    } else {
      assert (y - c) * s > 0.0;
    }
  }

  /** The loss figure: zero for an empty window, otherwise the loss
      percentage of the window's pings (see `LossBounds`), in [0, 100]. */
  lemma StatsLoss(samples: seq<PingSample>)
    ensures samples == [] ==> Stats(samples) == WindowStats(0.0, 0, 0.0)
    ensures samples != [] ==> Stats(samples).lossPct == LossOf(|SuccessRtts(samples)|, |samples|)
    ensures 0.0 <= Stats(samples).lossPct <= 100.0
  {
    if samples != [] {
      LossBounds(|SuccessRtts(samples)|, |samples|);
    }
  }

  /** The RTT figures: with no success both are zero; otherwise p95 is the
      element at the nearest-rank index of the ascending-sorted successful RTTs,
      hence an observed RTT between the smallest and the largest, and the mean
      lies between the smallest and the largest RTT too. */
  lemma StatsRtt(samples: seq<PingSample>)
    ensures SuccessRtts(samples) == [] ==> Stats(samples).rttP95 == 0 && Stats(samples).rttAvg == 0.0
    ensures var rtts := SuccessRtts(samples);
      rtts != [] ==>
        && Stats(samples).rttP95 == Sort(rtts)[P95Index(|rtts|)]
        && Stats(samples).rttP95 in rtts
        && Min(rtts) <= Stats(samples).rttP95 <= Max(rtts)
        && Min(rtts) as real <= Stats(samples).rttAvg <= Max(rtts) as real
  {
    var rtts := SuccessRtts(samples);
    if rtts != [] {
      var sorted := Sort(rtts);
      SortSorted(rtts);
      var p := sorted[P95Index(|rtts|)];
      assert p in multiset(sorted);
      assert p in rtts;
      SumBounds(rtts, Min(rtts), Max(rtts));
      MeanBetween(Sum(rtts), |rtts|, Min(rtts), Max(rtts));
    }
  }

  /** `computeStats`: count and collect the successful samples in one pass,
      then derive loss, p95 and mean. */
  method ComputeStats(samples: seq<PingSample>) returns (stats: WindowStats)
    ensures stats == Stats(samples)
  {
    if |samples| == 0 {
      return WindowStats(0.0, 0, 0.0);
    }
    var sent := |samples|;
    var recv := 0;
    var rtts: seq<int> := [];
    var rttSum := 0;
    for i := 0 to |samples|
      invariant rtts == SuccessRtts(samples[..i])
      invariant recv == |rtts|
      invariant rttSum == Sum(rtts)
    {
      var s := samples[i];
      assert samples[..i + 1] == samples[..i] + [s];
      if s.ok {
        recv := recv + 1;
        assert (rtts + [s.rtt])[..|rtts|] == rtts;
        rtts := rtts + [s.rtt];
        rttSum := rttSum + s.rtt;
      }
    }
    assert samples[..|samples|] == samples;
    var lossPct := (1.0 - (recv as real / sent as real)) * 100.0;
    if recv > 0 {
      var sorted := Sort(rtts);
      stats := WindowStats(lossPct, sorted[P95Index(recv)], rttSum as real / recv as real);
    } else {
      stats := WindowStats(lossPct, 0, 0.0);
    }
  }

  // ------------------------------------------------------------ degradation

  predicate Degraded(stats: WindowStats, consecutiveFailures: int) {
    || stats.lossPct >= LossThresholdPct
    || stats.rttP95 >= RttP95ThresholdMs
    || consecutiveFailures >= ConsecutiveFailThresh
  }

  /** The position of each criterion name in the fixed reporting order. */
  function ReasonRank(name: string): int {
    if name == "loss_pct" then 0
    else if name == "rtt_p95_ms" then 1
    else if name == "consecutive_failures" then 2
    else 3
  }

  /** The names of the triggered criteria: each appears exactly when its
      threshold is met, in the order loss, latency, consecutive failures. */
  function Reasons(stats: WindowStats, consecutiveFailures: int): (r: seq<string>)
    ensures "loss_pct" in r <==> stats.lossPct >= LossThresholdPct
    ensures "rtt_p95_ms" in r <==> stats.rttP95 >= RttP95ThresholdMs
    ensures "consecutive_failures" in r <==> consecutiveFailures >= ConsecutiveFailThresh
    ensures forall i :: 0 <= i < |r| ==> r[i] != "" && ReasonRank(r[i]) < 3
    ensures forall i, j :: 0 <= i < j < |r| ==> ReasonRank(r[i]) < ReasonRank(r[j])
    ensures r == [] <==> !Degraded(stats, consecutiveFailures)
  {
    (if stats.lossPct >= LossThresholdPct then ["loss_pct"] else [])
    + (if stats.rttP95 >= RttP95ThresholdMs then ["rtt_p95_ms"] else [])
    + (if consecutiveFailures >= ConsecutiveFailThresh then ["consecutive_failures"] else [])
  }

  /** The reason string: the comma-join of the triggered criteria. */
  function ReasonText(stats: WindowStats, consecutiveFailures: int): string {
    Join(Reasons(stats, consecutiveFailures), ",")
  }

  /** `evaluateOutage`: degraded iff one criterion fires; the reason names the
      fired criteria and is "" exactly when nothing fired. */
  method EvaluateOutage(stats: WindowStats, consecutiveFailures: int) returns (reason: string, outage: bool)
    ensures outage <==> Degraded(stats, consecutiveFailures)
    ensures reason == ReasonText(stats, consecutiveFailures)
    ensures reason == "" <==> !outage
  {
    var reasons: seq<string> := [];
    if stats.lossPct >= LossThresholdPct {
      reasons := reasons + ["loss_pct"];
    }
    if stats.rttP95 >= RttP95ThresholdMs {
      reasons := reasons + ["rtt_p95_ms"];
    }
    if consecutiveFailures >= ConsecutiveFailThresh {
      reasons := reasons + ["consecutive_failures"];
    }
    assert reasons == Reasons(stats, consecutiveFailures);
    JoinEmptyIff(reasons, ",");
    if |reasons| == 0 {
      return "", false;
    }
    return Join(reasons, ","), true;
  }

  // ------------------------------------------------------------ episode ids

  /** `fmt.Sprintf("%s-%d-%06d", target, ts.UnixNano(), counter)`. */
  function OutageId(target: string, ts: int, counter: nat): (id: string)
    ensures id != ""
  {
    target + "-" + IntToString(ts) + "-" + ZeroPad(NatToString(counter), 6)
  }

  /** Two ids built from different counter values differ, whatever the
      targets and timestamps: the zero-padded counter after the last '-' is
      recoverable from the id. */
  lemma OutageIdsDistinct(t1: string, ts1: int, c1: nat, t2: string, ts2: int, c2: nat)
    requires c1 != c2
    ensures OutageId(t1, ts1, c1) != OutageId(t2, ts2, c2)
  {
    var s1, s2 := ZeroPad(NatToString(c1), 6), ZeroPad(NatToString(c2), 6);
    var p1, p2 := t1 + "-" + IntToString(ts1) + "-", t2 + "-" + IntToString(ts2) + "-";
    PaddedCounterDigits(c1);
    PaddedCounterDigits(c2);
    ZeroPadInjective(c1, c2, 6);
    if |s1| < |s2| {
      DashBeforeDigits(p1, s1, p2, s2);
    } else if |s2| < |s1| {
      DashBeforeDigits(p2, s2, p1, s1);
    } else {
      SameLengthSuffix(p1, s1, p2, s2);
    }
  }

  lemma SameLengthSuffix(p: string, s: string, q: string, t: string)
    requires |s| == |t|
    ensures p + s == q + t ==> s == t
  {
    if p + s == q + t {
      assert s == (p + s)[|p|..];
      assert t == (q + t)[|q|..];
    }
  }

  /** A string whose last '-' comes just before a digit suffix cannot equal one
      whose longer digit suffix covers that position. */
  lemma DashBeforeDigits(p: string, s: string, q: string, t: string)
    requires |p| > 0 && p[|p| - 1] == '-' && AllDigits(t) && |s| < |t|
    ensures p + s != q + t
  {
    var i := |p| - 1;
    assert (p + s)[i] == '-';
    if |p + s| == |q + t| {
      assert (q + t)[i] == t[i - |q|];
    }
  }

  lemma PaddedCounterDigits(c: nat)
    ensures AllDigits(ZeroPad(NatToString(c), 6))
  {
    var s := NatToString(c);
    if |s| < 6 {
      var z := Zeros(6 - |s|);
      assert ZeroPad(s, 6) == z + s;
      assert forall i :: 0 <= i < |z + s| ==> (z + s)[i] == if i < |z| then z[i] else s[i - |z|];
    }
  }

  lemma RenderTimestampExample()
    ensures IntToString(123456789) == "123456789"
  {
    assert NatToString(1) == "1";
    assert NatToString(12) == "12";
    assert NatToString(123) == "123";
    assert NatToString(1234) == "1234";
    assert NatToString(12345) == "12345";
    assert NatToString(123456) == "123456";
    assert NatToString(1234567) == "1234567";
    assert NatToString(12345678) == "12345678";
  }

  lemma RenderCounterExample()
    ensures ZeroPad(NatToString(1), 6) == "000001"
  {
    assert NatToString(1) == "1";
    assert Zeros(1) == "0";
    assert Zeros(2) == "00";
    assert Zeros(3) == "000";
    assert Zeros(4) == "0000";
    assert Zeros(5) == "00000";
  }

  /** The id of the first episode of a fresh detector ends in 000001 (the
      format test of the repository). */
  lemma FirstOutageIdFormat()
    ensures OutageId("target", 123456789, 1) == "target" + "-" + "123456789" + "-" + "000001"
  {
    RenderTimestampExample();
    RenderCounterExample();
    var ts, counter := IntToString(123456789), ZeroPad(NatToString(1), 6);
    assert OutageId("target", 123456789, 1) == "target" + "-" + ts + "-" + counter;
  }

  // ------------------------------------------------------------ one ping

  /** `Duration.Milliseconds()`: nanoseconds to milliseconds, truncated toward zero. */
  function MillisOf(d: int): (ms: int)
    ensures d >= 0 ==> 0 <= ms && ms * NanosPerMilli <= d < (ms + 1) * NanosPerMilli
    ensures d < 0 ==> ms <= 0 && (ms - 1) * NanosPerMilli < d <= ms * NanosPerMilli
  {
    if d >= 0 then d / NanosPerMilli else -((-d) / NanosPerMilli)
  }

  function MaxReal(a: real, b: real): real { if b > a then b else a }
  function MaxInt(a: int, b: int): int { if b > a then b else a }

  /** The result of feeding one ping to one target's state. */
  datatype StepResult = StepResult(state: TargetState, events: seq<Event>, started: bool)

  /** The state with a new episode started by the current sample alone. */
  function Open(s: TargetState, stats: WindowStats, ok: bool, id: string, ts: int): TargetState {
    s.(inOutage := true, outageId := id, outageStart := ts, clearSince := None,
       lossPctMax := stats.lossPct, rttP95MaxMs := stats.rttP95, rttAvgMaxMs := stats.rttAvg,
       consecFailMax := s.consecFail,
       pingSent := 1, pingRecv := if ok then 1 else 0, dnsErrors := 0, tracerouteCount := 0)
  }

  /** The in-episode bookkeeping for one sample: counters and running maxima. */
  function Accumulate(s: TargetState, stats: WindowStats, ok: bool): TargetState {
    s.(pingSent := s.pingSent + 1,
       pingRecv := if ok then s.pingRecv + 1 else s.pingRecv,
       lossPctMax := MaxReal(s.lossPctMax, stats.lossPct),
       rttP95MaxMs := MaxInt(s.rttP95MaxMs, stats.rttP95),
       rttAvgMaxMs := MaxReal(s.rttAvgMaxMs, stats.rttAvg),
       consecFailMax := if s.consecFail > s.consecFailMax then s.consecFail else s.consecFailMax)
  }

  /** The two events that close an episode, from the final bookkeeping. */
  function Closing(s: TargetState, stats: WindowStats, target: string, ts: int): seq<Event> {
    [ OutageEnd(target, s.outageId, "cleared", stats.lossPct, stats.rttP95, s.consecFail),
      OutageSummary(target, s.outageId, s.outageStart, ts, MillisOf(ts - s.outageStart),
                    s.lossPctMax, s.rttP95MaxMs, s.rttAvgMaxMs, s.consecFailMax,
                    s.pingSent, s.pingRecv, s.dnsErrors, s.tracerouteCount) ]
  }

  /** The window update every ping starts with: append and prune, then reset
      the failure run on success or extend it on failure. */
  function Advance(st: TargetState, windowNs: int, ts: int, ok: bool, rtt: int): TargetState {
    st.(windowSamples := Prune(st.windowSamples + [PingSample(ts, ok, rtt)], ts - windowNs),
        consecFail := if ok then 0 else st.consecFail + 1)
  }

  /** The episode state machine, on the advanced state `s` and the statistics
      `stats` of its window. `newId` is the id the detector would hand out if
      this sample opens an episode. */
  function Transition(s: TargetState, stats: WindowStats, windowNs: int, target: string, ts: int, ok: bool,
                      newId: string): StepResult
  {
    var degraded := Degraded(stats, s.consecFail);
    if !s.inOutage && degraded then
      StepResult(Open(s, stats, ok, newId, ts),
                 [OutageStart(target, newId, ReasonText(stats, s.consecFail), stats.lossPct, stats.rttP95,
                              s.consecFail)], true)
    else if s.inOutage then
      Continue(s, stats, windowNs, target, ts, ok)
    else
      StepResult(s, [], false)
  }

  /** The in-episode branch of `Transition`: count the sample and raise the
      maxima; a degraded window resets the clean run, a clean one extends it
      and closes the episode once the run has lasted a full window. */
  function Continue(s: TargetState, stats: WindowStats, windowNs: int, target: string, ts: int, ok: bool)
    : StepResult
  {
    var acc := Accumulate(s, stats, ok);
    if Degraded(stats, s.consecFail) then
      StepResult(acc.(clearSince := None), [], false)
    else
      var since := s.clearSince.GetOr(ts);
      if ts - since >= windowNs then
        StepResult(acc.(inOutage := false, outageId := "", outageStart := 0, clearSince := None),
                   Closing(acc, stats, target, ts), false)
      else
        StepResult(acc.(clearSince := Some(since)), [], false)
  }

  /** `ProcessPing` on one target's state, as a function. */
  function PingStep(st: TargetState, windowNs: int, target: string, ts: int, ok: bool, rtt: int,
                    newId: string): StepResult
  {
    var s := Advance(st, windowNs, ts, ok, rtt);
    Transition(s, Stats(s.windowSamples), windowNs, target, ts, ok, newId)
  }

  /** The transition keeps the window and the failure run; its events are
      none, one start, or an end followed by its summary, all about this
      target. */
  lemma TransitionShape(s: TargetState, stats: WindowStats, windowNs: int, target: string, ts: int, ok: bool,
                        newId: string)
    ensures var r := Transition(s, stats, windowNs, target, ts, ok, newId);
      && r.state.windowSamples == s.windowSamples && r.state.consecFail == s.consecFail
      && (|| r.events == []
          || (|r.events| == 1 && r.events[0].OutageStart?)
          || (|r.events| == 2 && r.events[0].OutageEnd? && r.events[1].OutageSummary?
              && r.events[0].outageId == r.events[1].outageId == s.outageId
              && r.events[0].reason == "cleared"))
      && (forall i :: 0 <= i < |r.events| ==> r.events[i].target == target)
  {
  }

  /** Every ping is appended to the window, which is then pruned to the last
      `windowNs`; a success resets the failure run, a failure extends it; the
      events are none, one start, or an end followed by its summary, all
      about this target. */
  lemma PingStepWindow(st: TargetState, windowNs: int, target: string, ts: int, ok: bool, rtt: int,
                       newId: string)
    ensures var r := PingStep(st, windowNs, target, ts, ok, rtt, newId);
      && r.state.windowSamples == Prune(st.windowSamples + [PingSample(ts, ok, rtt)], ts - windowNs)
      && r.state.consecFail == (if ok then 0 else st.consecFail + 1)
      && (|| r.events == []
          || (|r.events| == 1 && r.events[0].OutageStart?)
          || (|r.events| == 2 && r.events[0].OutageEnd? && r.events[1].OutageSummary?
              && r.events[0].outageId == r.events[1].outageId == st.outageId
              && r.events[0].reason == "cleared"))
      && (forall i :: 0 <= i < |r.events| ==> r.events[i].target == target)
  {
    var s := Advance(st, windowNs, ts, ok, rtt);
    TransitionShape(s, Stats(s.windowSamples), windowNs, target, ts, ok, newId);
  }

  /** An episode opens exactly when none is open and the window is degraded;
      it is then seeded from this sample alone and its start event carries the
      new id and the reason text. */
  lemma TransitionOpening(s: TargetState, stats: WindowStats, windowNs: int, target: string, ts: int, ok: bool,
                          newId: string)
    ensures var r := Transition(s, stats, windowNs, target, ts, ok, newId);
      && (r.started <==> !s.inOutage && Degraded(stats, s.consecFail))
      && (r.started ==>
            && r.events == [OutageStart(target, newId, ReasonText(stats, s.consecFail),
                                        stats.lossPct, stats.rttP95, s.consecFail)]
            && r.state.inOutage && r.state.outageId == newId && r.state.outageStart == ts
            && r.state.clearSince == None
            && r.state.pingSent == 1 && r.state.pingRecv == (if ok then 1 else 0)
            && r.state.dnsErrors == 0 && r.state.tracerouteCount == 0
            && r.state.lossPctMax == stats.lossPct && r.state.rttP95MaxMs == stats.rttP95
            && r.state.rttAvgMaxMs == stats.rttAvg && r.state.consecFailMax == s.consecFail)
  {
  }

  /** Outside an episode a sample that does not open one emits nothing and
      changes nothing. */
  lemma TransitionQuiet(s: TargetState, stats: WindowStats, windowNs: int, target: string, ts: int, ok: bool,
                        newId: string)
    requires !s.inOutage && !Degraded(stats, s.consecFail)
    ensures Transition(s, stats, windowNs, target, ts, ok, newId) == StepResult(s, [], false)
  {
  }

  /** Inside an episode every sample is counted, the running maxima never
      decrease, and the start time stays while the episode does. */
  lemma TransitionInOutage(s: TargetState, stats: WindowStats, windowNs: int, target: string, ts: int, ok: bool,
                           newId: string)
    requires s.inOutage
    ensures var r := Transition(s, stats, windowNs, target, ts, ok, newId);
      && !r.started
      && r.state.pingSent == s.pingSent + 1
      && r.state.pingRecv == s.pingRecv + (if ok then 1 else 0)
      && r.state.dnsErrors == s.dnsErrors && r.state.tracerouteCount == s.tracerouteCount
      && r.state.lossPctMax == MaxReal(s.lossPctMax, stats.lossPct) >= s.lossPctMax
      && r.state.rttP95MaxMs == MaxInt(s.rttP95MaxMs, stats.rttP95) >= s.rttP95MaxMs
      && r.state.rttAvgMaxMs == MaxReal(s.rttAvgMaxMs, stats.rttAvg) >= s.rttAvgMaxMs
      && r.state.consecFailMax >= s.consecFailMax && r.state.consecFailMax >= s.consecFail
      && (r.state.inOutage ==> r.state.outageStart == s.outageStart)
  {
  }

  /** Hysteresis: inside an episode a degraded sample resets the clean run and
      never closes the episode. */
  lemma TransitionHysteresis(s: TargetState, stats: WindowStats, windowNs: int, target: string, ts: int, ok: bool,
                             newId: string)
    requires s.inOutage && Degraded(stats, s.consecFail)
    ensures var r := Transition(s, stats, windowNs, target, ts, ok, newId);
      r.events == [] && r.state.inOutage && r.state.outageId == s.outageId && r.state.clearSince == None
  {
  }

  /** Inside an episode a clean sample starts or continues the clean run, and
      the episode closes exactly when that run has lasted a full window; the
      summary then reports the episode's bookkeeping including this sample. */
  lemma TransitionClose(s: TargetState, stats: WindowStats, windowNs: int, target: string, ts: int, ok: bool,
                        newId: string)
    requires s.inOutage && !Degraded(stats, s.consecFail)
    ensures var r := Transition(s, stats, windowNs, target, ts, ok, newId);
      var since := s.clearSince.GetOr(ts);
      && (r.events != [] <==> ts - since >= windowNs)
      && (r.events == [] ==> r.state.inOutage && r.state.outageId == s.outageId && r.state.clearSince == Some(since))
      && (r.events != [] ==>
            && !r.state.inOutage && r.state.outageId == "" && r.state.clearSince == None
            && r.events[1] == OutageSummary(target, s.outageId, s.outageStart, ts,
                                            MillisOf(ts - s.outageStart),
                                            r.state.lossPctMax, r.state.rttP95MaxMs, r.state.rttAvgMaxMs,
                                            r.state.consecFailMax, r.state.pingSent, r.state.pingRecv,
                                            r.state.dnsErrors, r.state.tracerouteCount))
  {
  }

  /** The ping step as its transition, with the facts `ProcessPing` relies on:
      whether it opens, and that it keeps the invariant. */
  lemma PingStepIsTransition(st: TargetState, windowNs: int, target: string, ts: int, ok: bool, rtt: int,
                             newId: string)
    returns (r: StepResult)
    requires StateInv(st) && newId != ""
    ensures r == PingStep(st, windowNs, target, ts, ok, rtt, newId)
    ensures var s := Advance(st, windowNs, ts, ok, rtt);
      var stats := Stats(s.windowSamples);
      && r == Transition(s, stats, windowNs, target, ts, ok, newId)
      && (r.started <==> !s.inOutage && Degraded(stats, s.consecFail))
      && (r.started ==> r.state == Open(s, stats, ok, newId, ts)
                        && r.events == [OutageStart(target, newId, ReasonText(stats, s.consecFail), stats.lossPct,
                                                    stats.rttP95, s.consecFail)])
      && (!s.inOutage && !r.started ==> r == StepResult(s, [], false))
      && StateInv(r.state)
  {
    r := PingStep(st, windowNs, target, ts, ok, rtt, newId);
    var s := Advance(st, windowNs, ts, ok, rtt);
    TransitionOpening(s, Stats(s.windowSamples), windowNs, target, ts, ok, newId);
    PingStepKeepsInvariant(st, windowNs, target, ts, ok, rtt, newId);
  }

  /** The stored-state invariant survives every ping, given a non-empty id. */
  lemma PingStepKeepsInvariant(st: TargetState, windowNs: int, target: string, ts: int, ok: bool, rtt: int,
                               newId: string)
    requires StateInv(st) && newId != ""
    ensures StateInv(PingStep(st, windowNs, target, ts, ok, rtt, newId).state)
  {
    var s := Advance(st, windowNs, ts, ok, rtt);
    TransitionKeepsInvariant(s, Stats(s.windowSamples), windowNs, target, ts, ok, newId);
  }

  /** The transition restores the invariant on an advanced state, whose
      failure run may exceed the recorded maximum by the current sample. */
  lemma TransitionKeepsInvariant(s: TargetState, stats: WindowStats, windowNs: int, target: string, ts: int,
                                 ok: bool, newId: string)
    requires s.pingRecv <= s.pingSent && newId != ""
    requires s.inOutage ==> s.outageId != ""
    requires !s.inOutage ==> s.outageId == "" && s.clearSince == None
    ensures StateInv(Transition(s, stats, windowNs, target, ts, ok, newId).state)
  {
  }

  /** The per-target map after `RecordTraceroute(target, outageId)`. */
  function TracerouteRecorded(states: map<string, TargetState>, target: string, outageId: string)
    : map<string, TargetState>
  {
    if target in states && states[target].inOutage && states[target].outageId == outageId
    then states[target := states[target].(tracerouteCount := states[target].tracerouteCount + 1)]
    else states
  }

  /** Every stored target state keeps the invariant. */
  predicate AllInv(m: map<string, TargetState>) {
    forall t :: t in m ==> StateInv(m[t])
  }

  /** Storing a state that keeps the invariant keeps it for the whole map. */
  lemma StoreKeepsInvariant(m: map<string, TargetState>, target: string, s: TargetState)
    requires AllInv(m)
    requires StateInv(s)
    ensures AllInv(m[target := s])
  {
  }

  /** The first part of `ProcessPing`: append and prune the window, then
      update the failure run. */
  method AdvanceWindow(st: TargetState, windowNs: int, ts: int, ok: bool, rtt: int) returns (state: TargetState)
    ensures state == Advance(st, windowNs, ts, ok, rtt)
  {
    state := st;
    var samples := PruneWindow(state.windowSamples + [PingSample(ts, ok, rtt)], ts, windowNs);
    state := state.(windowSamples := samples);
    if ok {
      state := state.(consecFail := 0);
    } else {
      state := state.(consecFail := state.consecFail + 1);
    }
  }

  /** The opening branch of `ProcessPing`: seed the episode's bookkeeping from
      the current sample alone and emit its start event. */
  method OpenEpisode(s: TargetState, stats: WindowStats, reason: string, ok: bool, id: string,
                     target: string, ts: int)
    returns (state: TargetState, events: seq<Event>)
    requires !s.inOutage && Degraded(stats, s.consecFail) && reason == ReasonText(stats, s.consecFail)
    ensures state == Open(s, stats, ok, id, ts)
    ensures events == [OutageStart(target, id, reason, stats.lossPct, stats.rttP95, s.consecFail)]
  {
    state := s.(inOutage := true, outageId := id, outageStart := ts, clearSince := None);
    state := state.(lossPctMax := stats.lossPct, rttP95MaxMs := stats.rttP95,
                    rttAvgMaxMs := stats.rttAvg, consecFailMax := state.consecFail);
    state := state.(pingSent := 0, pingRecv := 0, dnsErrors := 0, tracerouteCount := 0);
    if ok {
      state := state.(pingSent := 1, pingRecv := 1);
    } else {
      state := state.(pingSent := 1, pingRecv := 0);
    }
    events := [OutageStart(target, id, reason, stats.lossPct, stats.rttP95, state.consecFail)];
  }

  /** The in-episode bookkeeping of `ProcessPing`: count the sample and
      raise the running maxima. */
  method CountSample(s: TargetState, stats: WindowStats, ok: bool) returns (state: TargetState)
    ensures state == Accumulate(s, stats, ok)
  {
    state := s;
    if ok {
      state := state.(pingSent := state.pingSent + 1, pingRecv := state.pingRecv + 1);
    } else {
      state := state.(pingSent := state.pingSent + 1);
    }
    if stats.lossPct > state.lossPctMax {
      state := state.(lossPctMax := stats.lossPct);
    }
    if stats.rttP95 > state.rttP95MaxMs {
      state := state.(rttP95MaxMs := stats.rttP95);
    }
    if stats.rttAvg > state.rttAvgMaxMs {
      state := state.(rttAvgMaxMs := stats.rttAvg);
    }
    if state.consecFail > state.consecFailMax {
      state := state.(consecFailMax := state.consecFail);
    }
  }

  /** The in-episode branch of `ProcessPing`: count the sample, raise the
      maxima, then either reset the clean run on a degraded window or extend it
      and close the episode once it has lasted a full window. */
  method ContinueEpisode(s: TargetState, stats: WindowStats, outage: bool, ok: bool, windowNs: int,
                         target: string, ts: int)
    returns (state: TargetState, events: seq<Event>)
    requires outage <==> Degraded(stats, s.consecFail)
    ensures var r := Continue(s, stats, windowNs, target, ts, ok);
      state == r.state && events == r.events
  {
    state := CountSample(s, stats, ok);
    ghost var acc := state;
    events := [];

    if outage {
      state := state.(clearSince := None);
    } else {
      if state.clearSince == None {
        state := state.(clearSince := Some(ts));
      }
      if ts - state.clearSince.value >= windowNs {
        var endEvent := OutageEnd(target, state.outageId, "cleared", stats.lossPct, stats.rttP95,
                                  state.consecFail);
        var summary := OutageSummary(target, state.outageId, state.outageStart, ts,
                                     MillisOf(ts - state.outageStart),
                                     state.lossPctMax, state.rttP95MaxMs, state.rttAvgMaxMs,
                                     state.consecFailMax, state.pingSent, state.pingRecv,
                                     state.dnsErrors, state.tracerouteCount);
        assert [endEvent, summary] == Closing(acc, stats, target, ts);
        state := state.(inOutage := false, outageId := "", outageStart := 0, clearSince := None);
        events := events + [endEvent, summary];
      }
    }
  }

  /** The episode part of `ProcessPing`: open, continue or leave alone, as
      `Transition` on the advanced state. `id` is only read when an episode
      opens, and then it is the id the detector hands out. */
  method EpisodeStep(s: TargetState, stats: WindowStats, reason: string, outage: bool, ok: bool, windowNs: int,
                     target: string, ts: int, id: string, ghost newId: string)
    returns (state: TargetState, events: seq<Event>)
    requires outage <==> Degraded(stats, s.consecFail)
    requires reason == ReasonText(stats, s.consecFail)
    requires !s.inOutage && outage ==> id == newId
    ensures var r := Transition(s, stats, windowNs, target, ts, ok, newId);
      state == r.state && events == r.events
  {
    if !s.inOutage && outage {
      state, events := OpenEpisode(s, stats, reason, ok, id, target, ts);
    } else if s.inOutage {
      state, events := ContinueEpisode(s, stats, outage, ok, windowNs, target, ts);
    } else {
      state, events := s, [];
    }
  }

  /** One target's part of `ProcessPing`: advance the window, compute the
      window's statistics, evaluate them and run the episode step. `counter`
      is the detector's id counter; the id an opening episode receives is the
      one `nextOutageID` formats from its next value. */
  method PingUpdate(st: TargetState, windowNs: int, target: string, ts: int, ok: bool, rtt: int, counter: nat)
    returns (r: StepResult)
    requires StateInv(st)
    ensures r == PingStep(st, windowNs, target, ts, ok, rtt, OutageId(target, ts, counter + 1))
    ensures StateInv(r.state)
  {
    ghost var newId := OutageId(target, ts, counter + 1);
    var state := AdvanceWindow(st, windowNs, ts, ok, rtt);
    var stats := ComputeStats(state.windowSamples);
    var reason, outage := EvaluateOutage(stats, state.consecFail);
    ghost var expected := PingStepIsTransition(st, windowNs, target, ts, ok, rtt, newId);
    var opens := !state.inOutage && outage;
    var id := "";
    if opens {
      id := OutageId(target, ts, counter + 1);
    }
    var events;
    state, events := EpisodeStep(state, stats, reason, outage, ok, windowNs, target, ts, id, newId);
    r := StepResult(state, events, opens);
  }

  /** `ProcessPing` on the detector's map and id counter. */
  method PingAll(states: map<string, TargetState>, counter: nat, windowNs: int, target: string, ts: int,
                 ok: bool, rtt: int)
    returns (states': map<string, TargetState>, counter': nat, events: seq<Event>)
    requires AllInv(states)
    ensures AllInv(states')
    ensures var r := PingStep(StateFor(states, target), windowNs, target, ts, ok, rtt,
                              OutageId(target, ts, counter + 1));
      && states' == states[target := r.state]
      && events == r.events
      && counter' == counter + (if r.started then 1 else 0)
  {
    var r := PingUpdate(StateFor(states, target), windowNs, target, ts, ok, rtt, counter);
    counter' := if r.started then counter + 1 else counter;
    StoreKeepsInvariant(states, target, r.state);
    states' := states[target := r.state];
    events := r.events;
  }

  // ------------------------------------------------------------ the detector

  class Detector {
    const windowSecs: int
    var states: map<string, TargetState>
    var idCounter: nat

    /** The window as a duration in nanoseconds. */
    function WindowNanos(): int {
      windowSecs * NanosPerSecond
    }

    /** `NewDetector(windowSecs)`. */
    constructor (windowSecs: int)
      ensures AllInv(states)
      ensures this.windowSecs == windowSecs && states == map[] && idCounter == 0
    {
      this.windowSecs := windowSecs;
      states := map[];
      idCounter := 0;
    }

    /** `nextOutageID`: bump the counter and format the id from it. This
        stands alone: `ProcessPing` goes through `PingAll`, which formats the
        id from the counter's next value and then bumps the counter, with the
        same id and the same new counter. */
    method NextOutageID(target: string, ts: int) returns (id: string)
      modifies this`idCounter
      ensures idCounter == old(idCounter) + 1
      ensures id == OutageId(target, ts, idCounter)
    {
      idCounter := idCounter + 1;
      id := OutageId(target, ts, idCounter);
    }

    /** `ProcessPing`: update the target's window and episode and return the
        events, as `PingStep` describes; the id counter moves only when an
        episode opens. */
    method ProcessPing(target: string, ts: int, ok: bool, rttMs: int) returns (events: seq<Event>)
      requires AllInv(states)
      modifies this
      ensures AllInv(states)
      ensures var r := PingStep(StateFor(old(states), target), WindowNanos(), target, ts, ok, rttMs,
                                OutageId(target, ts, old(idCounter) + 1));
        && states == old(states)[target := r.state]
        && events == r.events
        && idCounter == old(idCounter) + (if r.started then 1 else 0)
    {
      states, idCounter, events := PingAll(states, idCounter, WindowNanos(), target, ts, ok, rttMs);
    }

    /** `ProcessDNS`: a failed resolution counts against every open episode
        (DNS health is host-wide); a success changes nothing. */
    method ProcessDNS(ts: int, ok: bool)
      requires AllInv(states)
      modifies this
      ensures AllInv(states)
      ensures idCounter == old(idCounter)
      ensures states.Keys == old(states).Keys
      ensures forall t :: t in states ==>
        states[t] == if !ok && old(states)[t].inOutage
                     then old(states)[t].(dnsErrors := old(states)[t].dnsErrors + 1)
                     else old(states)[t]
    {
      if ok {
        return;
      }
      var remaining := states.Keys;
      while remaining != {}
        invariant remaining <= states.Keys
        invariant states.Keys == old(states).Keys
        invariant idCounter == old(idCounter)
        invariant forall t :: t in states && t in remaining ==> states[t] == old(states)[t]
        invariant forall t :: t in states && t !in remaining ==>
          states[t] == if old(states)[t].inOutage
                       then old(states)[t].(dnsErrors := old(states)[t].dnsErrors + 1)
                       else old(states)[t]
        decreases remaining
      {
        var t :| t in remaining;
        var state := states[t];
        if state.inOutage {
          states := states[t := state.(dnsErrors := state.dnsErrors + 1)];
        }
        remaining := remaining - {t};
      }
    }

    /** `RecordTraceroute`: count a trace only against the episode it was
        requested for, and only while that episode is open. */
    method RecordTraceroute(target: string, outageId: string)
      requires AllInv(states)
      modifies this
      ensures AllInv(states)
      ensures idCounter == old(idCounter)
      ensures states == TracerouteRecorded(old(states), target, outageId)
    {
      if target !in states {
        return;
      }
      var state := states[target];
      if state.inOutage && state.outageId == outageId {
        states := states[target := state.(tracerouteCount := state.tracerouteCount + 1)];
      }
    }

    /** `ActiveOutageID`: the open episode's id, "" when there is none. */
    method ActiveOutageID(target: string) returns (id: string)
      requires AllInv(states)
      ensures id != "" <==> target in states && states[target].inOutage
      ensures id != "" ==> id == states[target].outageId
    {
      if target !in states || !states[target].inOutage {
        return "";
      }
      return states[target].outageId;
    }
  }

  /** On a fresh target state with a 10 s window, one failing ping opens an
      episode on loss alone (one sample, 100% loss), with whatever id the
      detector hands out. */
  lemma FirstFailureStep(st: TargetState, windowNs: int, target: string, ts: int, id: string)
    requires st == ZeroState && windowNs == 10 * NanosPerSecond && id != ""
    ensures var r := PingStep(st, windowNs, target, ts, false, 0, id);
      r.started && r.events == [OutageStart(target, id, "loss_pct", 100.0, 0, 1)]
  {
    var sample := PingSample(ts, false, 0);
    var s := Advance(st, windowNs, ts, false, 0);
    assert Prune([sample], ts - windowNs) == [sample];
    assert s.windowSamples == [sample] && s.consecFail == 1 && !s.inOutage;
    assert SuccessRtts([sample]) == [];
    var stats := Stats([sample]);
    assert stats == WindowStats(100.0, 0, 0.0);
    assert Reasons(stats, 1) == ["loss_pct"];
    assert ReasonText(stats, 1) == "loss_pct";
    var r := PingStepIsTransition(st, windowNs, target, ts, false, 0, id);
    assert r.started;
  }

  /** A fresh detector with a 10 s window: the very first failing ping
      already opens an episode, on loss alone, before any run of three
      failures; the episode gets the first id. */
  method FirstFailureOpensOnLoss(target: string, ts: int) returns (events: seq<Event>)
    ensures events == [OutageStart(target, OutageId(target, ts, 1), "loss_pct", 100.0, 0, 1)]
  {
    var d := new Detector(10);
    FirstFailureStep(StateFor(d.states, target), d.WindowNanos(), target, ts, OutageId(target, ts, d.idCounter + 1));
    events := d.ProcessPing(target, ts, false, 0);
  }
}
