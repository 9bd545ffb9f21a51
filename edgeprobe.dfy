/** The wiring of cmd/edgeprobe/main.go that decides what is traced and
    logged: the aggregator step that feeds probe results to the detector,
    the mapping from detector events to log records and trace requests, and
    the traceroute worker's cooldown and path-change bookkeeping. Channels,
    goroutines and the clock are not modelled: each step is one atomic call
    with the clock reading passed in. */
module Edgeprobe {
  import opened Options
  import Det = Detector
  import L = Logging
  import T = Traceroute
  import Cfg = Config

  /** What the traceroute worker is sent: the target and the episode it is for. */
  datatype TraceRequest = TraceRequest(target: string, outageId: string)

  /** A ping probe's result (internal/probe/types.go); times in nanoseconds. */
  datatype PingResult = PingResult(target: string, time: int, ok: bool, rttMs: int)

  /** A DNS probe's result (internal/probe/types.go). */
  datatype DnsResult = DnsResult(time: int, ok: bool)

  /** One item the aggregator receives, from either channel. */
  datatype ProbeResult = Ping(ping: PingResult) | Dns(dns: DnsResult)

  // ------------------------------------------------------------ toLogHops

  /** One hop as logged: the round-trip time is null for a hop that did not answer. */
  function LogHop(h: T.Hop): L.TracerouteHop {
    L.TracerouteHop(h.ttl, h.ip, if h.ip != "" then Some(h.rttMs) else None)
  }

  /** The hops as logged, in trace order. */
  function LogHops(hops: seq<T.Hop>): (r: seq<L.TracerouteHop>)
    ensures |r| == |hops|
  {
    if hops == [] then [] else LogHops(hops[..|hops| - 1]) + [LogHop(hops[|hops| - 1])]
  }

  lemma {:induction false} LogHopsAt(hops: seq<T.Hop>, i: nat)
    requires i < |hops|
    ensures LogHops(hops)[i] == LogHop(hops[i])
    decreases |hops|
  {
    if i < |hops| - 1 {
      LogHopsAt(hops[..|hops| - 1], i);
    }
  }

  /** `toLogHops` keeps the number and order of the hops, each hop's TTL and
      address, and gives a round-trip time exactly to the hops with an address. */
  lemma LogHopsFaithful(hops: seq<T.Hop>)
    ensures |LogHops(hops)| == |hops|
    ensures forall i :: 0 <= i < |hops| ==>
      && LogHops(hops)[i].ttl == hops[i].ttl
      && LogHops(hops)[i].ip == hops[i].ip
      && (LogHops(hops)[i].rttMs.None? <==> hops[i].ip == "")
      && (LogHops(hops)[i].rttMs.Some? ==> LogHops(hops)[i].rttMs.value == hops[i].rttMs)
  {
    forall i | 0 <= i < |hops| ensures LogHops(hops)[i] == LogHop(hops[i]) {
      LogHopsAt(hops, i);
    }
  }

  /** Logging two runs of hops is logging each. */
  lemma {:induction false} LogHopsAppend(a: seq<T.Hop>, b: seq<T.Hop>)
    ensures LogHops(a + b) == LogHops(a) + LogHops(b)
    decreases |b|
  {
    if b == [] {
      assert a + b == a;
    } else {
      LogHopsAppend(a, b[..|b| - 1]);
      assert (a + b)[..|a + b| - 1] == a + b[..|b| - 1];
    }
  }

  /** `toLogHops`: append each converted hop. */
  method ToLogHops(hops: seq<T.Hop>) returns (out: seq<L.TracerouteHop>)
    ensures out == LogHops(hops)
  {
    out := [];
    for i := 0 to |hops|
      invariant out == LogHops(hops[..i])
    {
      var h := hops[i];
      var rtt: Option<real> := None;
      if h.ip != "" {
        rtt := Some(h.rttMs);
      }
      assert hops[..i + 1][..i] == hops[..i];
      out := out + [L.TracerouteHop(h.ttl, h.ip, rtt)];
    }
    assert hops[..|hops|] == hops;
  }

  // -------------------------------------------------------------- timing

  /** The cooldown between two traces of one target, in nanoseconds. */
  function CooldownNanos(cooldownSecs: int): int {
    cooldownSecs * Det.NanosPerSecond
  }

  /** The deadline of one traceroute run: the per-hop timeout for every hop,
      plus two seconds. */
  function TraceTimeoutNanos(maxHops: int, perHopMs: int): (ns: int)
    ensures maxHops >= 0 && perHopMs >= 0 ==> ns >= 2 * Det.NanosPerSecond
  {
    maxHops * (perHopMs * Det.NanosPerMilli) + 2 * Det.NanosPerSecond
  }

  /** With a configuration `validate` accepts, the deadline `run` derives
      from the traceroute section leaves room for at least one whole per-hop
      timeout, and two more seconds, so it is longer than two seconds; the
      cooldown is positive too. */
  lemma ConfiguredTraceTimeout(c: Cfg.Config)
    requires Cfg.WellFormed(c)
    ensures var ns := TraceTimeoutNanos(c.traceroute.maxHops, c.traceroute.timeoutMs);
      && ns >= c.traceroute.timeoutMs * Det.NanosPerMilli + 2 * Det.NanosPerSecond
      && ns > 2 * Det.NanosPerSecond
    ensures CooldownNanos(c.traceroute.cooldownSecs) > 0
  {
    assert Cfg.FieldOk(c, Cfg.TraceMaxHops) && Cfg.FieldOk(c, Cfg.TraceTimeout);
    assert Cfg.FieldOk(c, Cfg.TraceCooldown);
    var perHop := c.traceroute.timeoutMs * Det.NanosPerMilli;
    assert perHop > 0;
    assert c.traceroute.maxHops * perHop >= 1 * perHop by {
      AtLeastOneCopy(c.traceroute.maxHops, perHop);
    }
  }

  lemma AtLeastOneCopy(n: int, x: int)
    requires n >= 1 && x >= 0
    ensures n * x >= x
  {
    if n > 1 {
      AtLeastOneCopy(n - 1, x);
      assert n * x == (n - 1) * x + x;
    }
  }

  // ------------------------------------------------------ the aggregator

  /** One item through `startAggregator`: a ping goes to the detector and
      each event it returns is sent on, in the order returned; a DNS result
      goes to the detector and sends nothing. */
  method Aggregate(det: Det.Detector, item: ProbeResult, eventCh: seq<Det.Event>)
    returns (out: seq<Det.Event>)
    requires Det.AllInv(det.states)
    modifies det
    ensures Det.AllInv(det.states)
    ensures item.Ping? ==>
      var p := item.ping;
      var r := Det.PingStep(Det.StateFor(old(det.states), p.target), det.WindowNanos(), p.target,
                            p.time, p.ok, p.rttMs, Det.OutageId(p.target, p.time, old(det.idCounter) + 1));
      && out == eventCh + r.events
      && det.states == old(det.states)[p.target := r.state]
      && det.idCounter == old(det.idCounter) + (if r.started then 1 else 0)
    ensures item.Dns? ==>
      && out == eventCh
      && det.idCounter == old(det.idCounter)
      && det.states.Keys == old(det.states).Keys
      && forall t :: t in det.states ==>
           det.states[t] == if !item.dns.ok && old(det.states)[t].inOutage
                            then old(det.states)[t].(dnsErrors := old(det.states)[t].dnsErrors + 1)
                            else old(det.states)[t]
  {
    match item
    case Ping(p) =>
      var events := det.ProcessPing(p.target, p.time, p.ok, p.rttMs);
      out := Forward(eventCh, events);
    case Dns(d) =>
      det.ProcessDNS(d.time, d.ok);
      out := eventCh;
  }

  /** The aggregator's `for _, e := range events { eventCh <- e }`. */
  method Forward(eventCh: seq<Det.Event>, events: seq<Det.Event>) returns (out: seq<Det.Event>)
    ensures out == eventCh + events
  {
    out := eventCh;
    for i := 0 to |events|
      invariant out == eventCh + events[..i]
    {
      assert events[..i + 1] == events[..i] + [events[i]];
      out := out + [events[i]];
    }
    assert events[..|events|] == events;
  }

  // ------------------------------------------------- events to records

  /** The record type `run` logs for each event kind. */
  function EventKind(e: Det.Event): string {
    match e
    case OutageStart(_, _, _, _, _, _) => "degradation_start"
    case OutageEnd(_, _, _, _, _, _) => "degradation_end"
    case OutageSummary(_, _, _, _, _, _, _, _, _, _, _, _, _) => "outage_summary"
  }

  /** The record `run` builds for a detector event: the envelope names the
      event's target and episode, and the body copies the event's figures. */
  function EventRecord(e: Det.Event): (r: L.Record)
    ensures r.base == L.NewBase(EventKind(e), e.target, e.outageId)
    ensures e.OutageSummary? <==> r.OutageSummary?
  {
    match e
    case OutageStart(t, id, reason, loss, p95, fails) =>
      L.Degradation(L.NewBase("degradation_start", t, id), reason, loss, p95 as real, fails)
    case OutageEnd(t, id, reason, loss, p95, fails) =>
      L.Degradation(L.NewBase("degradation_end", t, id), reason, loss, p95 as real, fails)
    case OutageSummary(t, id, start, end, dur, lossMax, p95Max, avgMax, failMax, sent, recv, dnsErrs, traces) =>
      L.OutageSummary(L.NewBase("outage_summary", t, id), start, end, dur, lossMax, p95Max as real,
                      avgMax, failMax, sent, recv, dnsErrs, traces)
  }

  /** A record built for an event of a non-empty target and episode is
      accepted once stamped, whenever the clock reading and the logger's
      identity are set. */
  lemma EventRecordAccepted(e: Det.Event, n: nat, nowUtc: string, nowMs: int,
                            toolName: string, toolVersion: string, hostId: string)
    requires e.target != "" && e.outageId != ""
    requires nowUtc != "" && nowMs != 0 && toolName != "" && toolVersion != "" && hostId != ""
    ensures L.ValidateBase(L.Stamp(EventRecord(e).base, n, nowUtc, nowMs, toolName, toolVersion, hostId)).None?
  {
    L.StampedValidIff(EventRecord(e).base, n, nowUtc, nowMs, toolName, toolVersion, hostId);
  }

  /** A record with its envelope replaced. */
  function WithBase(r: L.Record, b: L.BaseEvent): L.Record { r.(base := b) }

  /** One event of `run`'s loop: log its record, and for an episode that
      has just opened ask for a trace of the target. A failed write ends
      `run` with that error, so no trace is asked for. */
  method HandleEvent(logger: L.Logger, e: Det.Event, nowUtc: string, nowMs: int,
                     writeErr: Option<string>)
    returns (err: Option<string>, request: Option<TraceRequest>)
    requires logger.Valid()
    modifies logger
    ensures logger.Valid()
    ensures logger.hasWriter == old(logger.hasWriter)
    ensures var s := L.Stamp(EventRecord(e).base, old(logger.seqNo) + 1, nowUtc, nowMs,
                             logger.toolName, logger.toolVersion, logger.hostId);
      && (!old(logger.hasWriter) ==> err == Some("logger not initialized") && logger.written == old(logger.written))
      && (old(logger.hasWriter) ==> err == if L.ValidateBase(s).Some? then L.ValidateBase(s) else writeErr)
      && (err.None? ==> logger.written == old(logger.written) + [WithBase(EventRecord(e), s)])
      && (err.Some? ==> logger.written == old(logger.written))
    ensures logger.seqNo == old(logger.seqNo) + (if old(logger.hasWriter) then 1 else 0)
    ensures request == if err.None? && e.OutageStart? then Some(TraceRequest(e.target, e.outageId)) else None
  {
    var stamped;
    err, stamped := L.Emit(logger, L.Present(EventRecord(e)), nowUtc, nowMs, writeErr);
    if err.Some? {
      return err, None;
    }
    if e.OutageStart? {
      request := Some(TraceRequest(e.target, e.outageId));
    } else {
      request := None;
    }
  }

  // ------------------------------------------------ the traceroute worker

  /** Whether a request falls within the cooldown of the target's last
      honoured one. An unseen target's last trace is Go's zero time, which is
      further in the past than any cooldown, so its request is honoured. */
  predicate CoolingDown(lastTrace: map<string, int>, cooldownNs: int, target: string, now: int)
    ensures target !in lastTrace ==> !CoolingDown(lastTrace, cooldownNs, target, now)
    ensures cooldownNs <= 0 && target in lastTrace && lastTrace[target] <= now ==>
      !CoolingDown(lastTrace, cooldownNs, target, now)
  {
    target in lastTrace && now - lastTrace[target] < cooldownNs
  }

  /** A map read that yields Go's zero value for a missing key. */
  function Lookup<V>(m: map<string, V>, key: string, zero: V): V {
    if key in m then m[key] else zero
  }

  /** A trace that succeeded with a fingerprint. */
  predicate Clean(res: T.TraceResult) { res.err == "" && res.pathHash != "" }

  /** The `traceroute_result` record of an honoured request. */
  function ResultRecord(req: TraceRequest, res: T.TraceResult): L.Record {
    L.TracerouteResult(L.NewBase("traceroute_result", req.target, req.outageId),
                       LogHops(res.hops), res.pathHash, res.err)
  }

  /** The records an honoured request emits, given the stored fingerprints:
      always the result, then a path change when a clean trace's fingerprint
      differs from a stored one. */
  function TraceRecords(lastPath: map<string, string>, lastHops: map<string, seq<L.TracerouteHop>>,
                        req: TraceRequest, res: T.TraceResult): (rs: seq<L.Record>)
    ensures 1 <= |rs| <= 2 && rs[0] == ResultRecord(req, res)
    ensures |rs| == 2 <==>
      Clean(res) && Lookup(lastPath, req.target, "") != "" && Lookup(lastPath, req.target, "") != res.pathHash
    ensures |rs| == 2 ==>
      && rs[1].PathChange?
      && rs[1].base == L.NewBase("path_change", req.target, req.outageId)
      && rs[1].prevPathHash == lastPath[req.target] && rs[1].newPathHash == res.pathHash
      && rs[1].prevHops == Lookup(lastHops, req.target, []) && rs[1].newHops == LogHops(res.hops)
    ensures req.target !in lastPath ==> |rs| == 1
  {
    var prev := Lookup(lastPath, req.target, "");
    [ResultRecord(req, res)] +
      if Clean(res) && prev != "" && prev != res.pathHash
      then [L.PathChange(L.NewBase("path_change", req.target, req.outageId), prev, res.pathHash,
                         Lookup(lastHops, req.target, []), LogHops(res.hops))]
      else []
  }

  /** The stored fingerprint after a trace: replaced only by a clean one. */
  function PathAfter(lastPath: map<string, string>, target: string, res: T.TraceResult): map<string, string> {
    if Clean(res) then lastPath[target := res.pathHash] else lastPath
  }

  /** The stored hops after a trace: replaced only by a clean one. */
  function HopsAfter(lastHops: map<string, seq<L.TracerouteHop>>, target: string, res: T.TraceResult)
    : map<string, seq<L.TracerouteHop>>
  {
    if Clean(res) then lastHops[target := LogHops(res.hops)] else lastHops
  }

  /** After an honoured request at `now`, the target's next request is
      honoured exactly when it comes a full cooldown later. */
  lemma CooldownAfterTrace(lastTrace: map<string, int>, cooldownNs: int, target: string, now: int, later: int)
    ensures CoolingDown(lastTrace[target := now], cooldownNs, target, later) <==> later - now < cooldownNs
  {
  }

  /** A clean trace that repeats the stored fingerprint reports no change. */
  lemma SamePathNoChange(lastPath: map<string, string>, lastHops: map<string, seq<L.TracerouteHop>>,
                         req: TraceRequest, first: T.TraceResult, second: T.TraceResult)
    requires Clean(first) && second.pathHash == first.pathHash
    ensures |TraceRecords(PathAfter(lastPath, req.target, first), HopsAfter(lastHops, req.target, first),
                          req, second)| == 1
  {
  }

  /** A reported change starts from the last clean trace: its previous
      fingerprint and hops are that trace's, whatever errored traces came
      between. */
  lemma ChangeStartsFromLastClean(lastPath: map<string, string>, lastHops: map<string, seq<L.TracerouteHop>>,
                                  req: TraceRequest, first: T.TraceResult, errored: T.TraceResult,
                                  second: T.TraceResult)
    requires Clean(first) && !Clean(errored)
    ensures var p := PathAfter(PathAfter(lastPath, req.target, first), req.target, errored);
      var h := HopsAfter(HopsAfter(lastHops, req.target, first), req.target, errored);
      var rs := TraceRecords(p, h, req, second);
      |rs| == 2 ==> rs[1].prevPathHash == first.pathHash && rs[1].prevHops == LogHops(first.hops)
  {
  }

  /** The traceroute worker's memory: when each target was last traced,
      and the fingerprint and hops of its last clean trace. */
  class TraceCorrelator {
    const cooldownNs: int
    var lastTrace: map<string, int>
    var lastPath: map<string, string>
    var lastHops: map<string, seq<L.TracerouteHop>>

    /** A stored fingerprint is never empty and always has its hops beside it. */
    ghost predicate Valid()
      reads this
    {
      && lastPath.Keys == lastHops.Keys
      && forall t :: t in lastPath ==> lastPath[t] != ""
    }

    /** The worker's state when `startTracerouteWorker` starts it. */
    constructor (cooldownSecs: int)
      ensures Valid()
      ensures cooldownNs == CooldownNanos(cooldownSecs)
      ensures lastTrace == map[] && lastPath == map[] && lastHops == map[]
    {
      cooldownNs := cooldownSecs * Det.NanosPerSecond;
      lastTrace := map[];
      lastPath := map[];
      lastHops := map[];
    }

    /** One request of the worker loop at clock reading `now`. `res` is what
        `traceroute.Run` returns for the target when the request is honoured.
        A request within the cooldown changes nothing and emits nothing.
        Otherwise the request is stamped, counted against its episode, and
        the result and possibly a path change are emitted; a clean trace
        becomes the stored one. */
    method Handle(det: Det.Detector, req: TraceRequest, now: int, res: T.TraceResult)
      returns (records: seq<L.Record>)
      requires Valid() && Det.AllInv(det.states)
      modifies this, det
      ensures Valid() && Det.AllInv(det.states)
      ensures det.idCounter == old(det.idCounter)
      ensures CoolingDown(old(lastTrace), cooldownNs, req.target, now) ==>
        && records == []
        && lastTrace == old(lastTrace) && lastPath == old(lastPath) && lastHops == old(lastHops)
        && det.states == old(det.states)
      ensures !CoolingDown(old(lastTrace), cooldownNs, req.target, now) ==>
        && lastTrace == old(lastTrace)[req.target := now]
        && det.states == Det.TracerouteRecorded(old(det.states), req.target, req.outageId)
        && records == TraceRecords(old(lastPath), old(lastHops), req, res)
        && lastPath == PathAfter(old(lastPath), req.target, res)
        && lastHops == HopsAfter(old(lastHops), req.target, res)
    {
      if req.target in lastTrace && now - lastTrace[req.target] < cooldownNs {
        return [];
      }
      lastTrace := lastTrace[req.target := now];

      det.RecordTraceroute(req.target, req.outageId);
      records, lastPath, lastHops := TraceOutcome(lastPath, lastHops, req, res);
    }
  }

  /** The honoured half of the worker loop on the stored paths: emit the
      result, report a change of a clean trace from a stored fingerprint,
      and store a clean trace. */
  method TraceOutcome(lastPath: map<string, string>, lastHops: map<string, seq<L.TracerouteHop>>,
                      req: TraceRequest, res: T.TraceResult)
    returns (records: seq<L.Record>, path': map<string, string>, hops': map<string, seq<L.TracerouteHop>>)
    requires lastPath.Keys == lastHops.Keys && forall t :: t in lastPath ==> lastPath[t] != ""
    ensures path'.Keys == hops'.Keys && forall t :: t in path' ==> path'[t] != ""
    ensures records == TraceRecords(lastPath, lastHops, req, res)
    ensures path' == PathAfter(lastPath, req.target, res)
    ensures hops' == HopsAfter(lastHops, req.target, res)
  {
    path', hops' := lastPath, lastHops;
    var hops := ToLogHops(res.hops);
    records := [L.TracerouteResult(L.NewBase("traceroute_result", req.target, req.outageId),
                                   hops, res.pathHash, res.err)];

    if res.err == "" && res.pathHash != "" {
      var prev := if req.target in lastPath then lastPath[req.target] else "";
      if prev != "" && prev != res.pathHash {
        var prevHops := if req.target in lastHops then lastHops[req.target] else [];
        records := records + [L.PathChange(L.NewBase("path_change", req.target, req.outageId),
                                           prev, res.pathHash, prevHops, hops)];
      }
      path' := lastPath[req.target := res.pathHash];
      hops' := lastHops[req.target := hops];
    }
  }

  // ------------------------------------------------------------ scenario

  /** The two paths of the scenario below: the second hop changes address. */
  function PathA(): seq<T.Hop> { [T.Hop(1, "10.0.0.1", 1.0), T.Hop(2, "10.0.0.2", 2.0)] }
  function PathB(): seq<T.Hop> { [T.Hop(1, "10.0.0.1", 1.0), T.Hop(2, "10.0.0.3", 2.0)] }

  /** The two paths have different fingerprint inputs. */
  lemma PathsHaveDistinctPreimages()
    ensures T.Preimage(PathA()) != T.Preimage(PathB())
  {
    assert PathA()[1 := PathA()[1].(ip := "10.0.0.3")] == PathB();
    T.PreimageSeparatesIp(PathA(), 1, "10.0.0.3");
  }

  /** One target, a one-minute cooldown: the request at 0 s is honoured
      (nothing stored yet, so no path change), the one at 30 s is dropped,
      and the one at 90 s, whose trace takes the other path, reports the
      change from the first fingerprint to the second. `hashA` and `hashB`
      stand for the digests of the two paths. */
  method CooldownScenario(hashA: string, hashB: string)
    returns (first: seq<L.Record>, second: seq<L.Record>, third: seq<L.Record>)
    requires hashA != "" && hashB != "" && hashA != hashB
    ensures |first| == 1 && first[0].TracerouteResult? && first[0].pathHash == hashA
    ensures second == []
    ensures |third| == 2 && third[1].PathChange?
    ensures third[1].prevPathHash == hashA && third[1].newPathHash == hashB
    ensures third[1].prevHops == LogHops(PathA()) && third[1].newHops == LogHops(PathB())
  {
    var det := new Det.Detector(10);
    var w := new TraceCorrelator(60);
    var req := TraceRequest("gw", "gw-1-000001");
    first := w.Handle(det, req, 0, T.TraceResult(PathA(), hashA, ""));
    second := w.Handle(det, req, 30 * Det.NanosPerSecond, T.TraceResult(PathA(), hashA, ""));
    third := w.Handle(det, req, 90 * Det.NanosPerSecond, T.TraceResult(PathB(), hashB, ""));
  }
}
