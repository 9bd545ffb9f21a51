/** The log-record envelope (internal/logging/records.go) and the logger that
    stamps, validates and writes it (internal/logging/logger.go). The JSON
    serialisation and the rotating file behind the writer are not modelled:
    the writer is the sequence of records it has accepted. */
module Logging {
  import opened Options
  import opened Checks

  /** The common envelope of every log record. */
  datatype BaseEvent = BaseEvent(
    tsUtc: string,
    tsUnixMs: int,
    seqNo: nat,
    kind: string,
    target: string,
    outageId: string,
    schemaVersion: int,
    toolName: string,
    toolVersion: string,
    hostId: string,
    clockSource: string)

  /** The envelope a producer builds: only the identifiers are set. */
  function NewBase(kind: string, target: string, outageId: string): BaseEvent {
    BaseEvent("", 0, 0, kind, target, outageId, 0, "", "", "", "")
  }

  /** One hop of a traceroute record; `rttMs` is JSON null when absent. */
  datatype TracerouteHop = TracerouteHop(ttl: int, ip: string, rttMs: Option<real>)

  /** The four record kinds, each embedding the envelope. Times are integer
      nanoseconds since the Unix epoch. */
  datatype Record =
    | Degradation(base: BaseEvent, reason: string, lossPct: real, rttP95Ms: real,
                  consecutiveFailures: int)
    | OutageSummary(base: BaseEvent, startTs: int, endTs: int, durationMs: int,
                    lossPctMax: real, rttP95MaxMs: real, rttAvgMaxMs: real,
                    consecutiveFailMax: int, pingSent: int, pingRecv: int,
                    dnsErrors: int, tracerouteCount: int)
    | TracerouteResult(base: BaseEvent, hops: seq<TracerouteHop>, pathHash: string, err: string)
    | PathChange(base: BaseEvent, prevPathHash: string, newPathHash: string,
                 prevHops: seq<TracerouteHop>, newHops: seq<TracerouteHop>)

  /** What `Emit` is handed: a nil interface, a record whose `Base()` is nil,
      or a record with its envelope. */
  datatype Emittable = NilRecord | MissingBase | Present(record: Record)

  const SchemaVersion: int := 2
  const ClockSource: string := "system"

  // ------------------------------------------------------------ validation

  /** The envelope checks of `validateBase`, in the order they are made, each
      with the message reported when it is the first to fail. */
  function BaseChecks(b: BaseEvent): (cs: seq<Check<string>>)
    ensures |cs| == 9
  {
    [ Check(b.tsUtc != "" && b.tsUnixMs != 0, "invalid timestamps on log record"),
      Check(b.kind != "", "log record missing type"),
      Check(b.target != "", "log record missing target"),
      Check(b.outageId != "", "log record missing outage_id"),
      Check(b.toolName != "", "log record missing tool_name"),
      Check(b.toolVersion != "", "log record missing tool_version"),
      Check(b.hostId != "", "log record missing host_id"),
      Check(b.schemaVersion == SchemaVersion, "log record schema_version must be 2"),
      Check(b.clockSource == ClockSource, "log record clock_source must be system") ]
  }

  /** An envelope fit to be written. */
  predicate BaseValid(b: BaseEvent) {
    && b.tsUtc != "" && b.tsUnixMs != 0
    && b.kind != "" && b.target != "" && b.outageId != ""
    && b.toolName != "" && b.toolVersion != "" && b.hostId != ""
    && b.schemaVersion == 2 && b.clockSource == "system"
  }

  /** `validateBase`: a chain of checks returning the first error. It accepts
      exactly the valid envelopes, and every error it returns has a message. */
  function ValidateBase(b: BaseEvent): (r: Option<string>)
    ensures r.None? <==> BaseValid(b)
    ensures r.Some? ==> r.value != ""
  {
    if b.tsUtc == "" || b.tsUnixMs == 0 then Some("invalid timestamps on log record")
    else if b.kind == "" then Some("log record missing type")
    else if b.target == "" then Some("log record missing target")
    else if b.outageId == "" then Some("log record missing outage_id")
    else if b.toolName == "" then Some("log record missing tool_name")
    else if b.toolVersion == "" then Some("log record missing tool_version")
    else if b.hostId == "" then Some("log record missing host_id")
    else if b.schemaVersion != 2 then Some("log record schema_version must be 2")
    else if b.clockSource != "system" then Some("log record clock_source must be system")
    else None
  }

  /** `validateBase` reports the first failing check in the fixed order, and
      nothing when every check passes. */
  lemma ValidateBaseFirstFailure(b: BaseEvent)
    ensures ValidateBase(b) == FirstFailure(BaseChecks(b))
    ensures ValidateBase(b).None? <==> forall i :: 0 <= i < |BaseChecks(b)| ==> BaseChecks(b)[i].ok
  {
    var cs := BaseChecks(b);
    var k := FirstFailing(cs);
    if k < 9 {
      assert !cs[k].ok;
    }
    assert k > 0 ==> cs[0].ok;
    assert k > 1 ==> cs[1].ok;
    assert k > 2 ==> cs[2].ok;
    assert k > 3 ==> cs[3].ok;
    assert k > 4 ==> cs[4].ok;
    assert k > 5 ==> cs[5].ok;
    assert k > 6 ==> cs[6].ok;
    assert k > 7 ==> cs[7].ok;
    assert k > 8 ==> cs[8].ok;
  }

  // -------------------------------------------------------------- stamping

  /** `value` unless it is empty, then `default`. */
  function Default(value: string, default: string): (r: string)
    ensures value != "" ==> r == value
    ensures value == "" ==> r == default
  {
    if value == "" then default else value
  }

  /** The envelope after stamping: clock readings, the sequence number, the
      schema and clock source, and the logger's identity where the record
      left it empty. */
  function Stamp(b: BaseEvent, n: nat, nowUtc: string, nowMs: int,
                 toolName: string, toolVersion: string, hostId: string): BaseEvent
  {
    b.(tsUtc := nowUtc, tsUnixMs := nowMs, seqNo := n, clockSource := ClockSource,
       schemaVersion := SchemaVersion,
       toolName := Default(b.toolName, toolName),
       toolVersion := Default(b.toolVersion, toolVersion),
       hostId := Default(b.hostId, hostId))
  }

  /** Stamping keeps the identifiers, sets the envelope constants and fills
      identity fields only when they are empty. */
  lemma StampFields(b: BaseEvent, n: nat, nowUtc: string, nowMs: int,
                    toolName: string, toolVersion: string, hostId: string)
    ensures var s := Stamp(b, n, nowUtc, nowMs, toolName, toolVersion, hostId);
      && s.kind == b.kind && s.target == b.target && s.outageId == b.outageId
      && s.seqNo == n && s.tsUtc == nowUtc && s.tsUnixMs == nowMs
      && s.schemaVersion == 2 && s.clockSource == "system"
      && (b.toolName != "" ==> s.toolName == b.toolName)
      && (b.toolName == "" ==> s.toolName == toolName)
      && (b.toolVersion != "" ==> s.toolVersion == b.toolVersion)
      && (b.toolVersion == "" ==> s.toolVersion == toolVersion)
      && (b.hostId != "" ==> s.hostId == b.hostId)
      && (b.hostId == "" ==> s.hostId == hostId)
  {
  }

  /** A stamped envelope passes validation exactly when the clock readings
      are set, the identifiers are non-empty and the identity fields are
      non-empty after defaulting; the schema and clock checks cannot fail. */
  lemma StampedValidIff(b: BaseEvent, n: nat, nowUtc: string, nowMs: int,
                        toolName: string, toolVersion: string, hostId: string)
    ensures var s := Stamp(b, n, nowUtc, nowMs, toolName, toolVersion, hostId);
      ValidateBase(s).None? <==>
        && nowUtc != "" && nowMs != 0
        && b.kind != "" && b.target != "" && b.outageId != ""
        && (b.toolName != "" || toolName != "")
        && (b.toolVersion != "" || toolVersion != "")
        && (b.hostId != "" || hostId != "")
  {
  }

  // ---------------------------------------------------------------- logger

  /** Every accepted record has a valid envelope, the accepted records
      carry strictly increasing sequence numbers, none above `counter`. */
  ghost predicate WrittenValid(written: seq<Record>, counter: nat) {
    && (forall i :: 0 <= i < |written| ==> BaseValid(written[i].base))
    && (forall i, j :: 0 <= i < j < |written| ==> written[i].base.seqNo < written[j].base.seqNo)
    && (forall i :: 0 <= i < |written| ==> written[i].base.seqNo <= counter)
  }

  /** Accepting a valid record stamped with the advanced counter keeps the
      accepted records valid and strictly increasing. */
  lemma AcceptKeepsValid(written: seq<Record>, counter: nat, rec: Record)
    requires WrittenValid(written, counter)
    requires BaseValid(rec.base) && rec.base.seqNo == counter + 1
    ensures WrittenValid(written + [rec], counter + 1)
  {
  }

  /** The stamping of `Emit`, one field at a time. */
  method StampBase(b: BaseEvent, n: nat, nowUtc: string, nowMs: int,
                   toolName: string, toolVersion: string, hostId: string) returns (s: BaseEvent)
    ensures s == Stamp(b, n, nowUtc, nowMs, toolName, toolVersion, hostId)
  {
    s := b.(tsUtc := nowUtc, tsUnixMs := nowMs, seqNo := n,
            clockSource := ClockSource, schemaVersion := SchemaVersion);
    if s.toolName == "" {
      s := s.(toolName := toolName);
    }
    if s.toolVersion == "" {
      s := s.(toolVersion := toolVersion);
    }
    if s.hostId == "" {
      s := s.(hostId := hostId);
    }
  }

  /** The logger: whether a writer is attached, the sequence counter, the
      identity it stamps, and the records its writer has accepted. */
  class Logger {
    var hasWriter: bool
    var seqNo: nat
    const toolName: string
    const toolVersion: string
    const hostId: string
    var written: seq<Record>

    /** Every accepted record has a valid envelope, the accepted records
        carry strictly increasing sequence numbers, none above the counter. */
    ghost predicate Valid()
      reads this
    {
      WrittenValid(written, seqNo)
    }

    /** `New` after the log directory and writer are in place. */
    constructor (toolName: string, toolVersion: string, hostId: string)
      ensures Valid()
      ensures hasWriter && seqNo == 0 && written == []
      ensures this.toolName == toolName && this.toolVersion == toolVersion && this.hostId == hostId
    {
      hasWriter := true;
      seqNo := 0;
      this.toolName := toolName;
      this.toolVersion := toolVersion;
      this.hostId := hostId;
      written := [];
    }
  }

  /** `Logger.Emit`. `l` is the receiver and may be nil; `nowUtc` and `nowMs`
      are the clock reading; `writeErr` is what the writer returns. The
      stamped record is returned as well, since Go stamps the caller's
      record in place before validating it. */
  method Emit(l: Logger?, item: Emittable, nowUtc: string, nowMs: int, writeErr: Option<string>)
    returns (err: Option<string>, stamped: Option<Record>)
    requires l != null ==> l.Valid()
    modifies l
    ensures l != null ==> l.Valid()
    ensures l == null || !old(l.hasWriter) ==>
      err == Some("logger not initialized") && stamped == None
    ensures l != null && old(l.hasWriter) && item.NilRecord? ==>
      err == Some("log record is nil") && stamped == None
    ensures l != null && old(l.hasWriter) && item.MissingBase? ==>
      err == Some("log record missing base event") && stamped == None
    ensures l != null && (!old(l.hasWriter) || !item.Present?) ==>
      l.seqNo == old(l.seqNo) && l.written == old(l.written)
    ensures l != null && old(l.hasWriter) && item.Present? ==>
      var s := Stamp(item.record.base, old(l.seqNo) + 1, nowUtc, nowMs,
                     l.toolName, l.toolVersion, l.hostId);
      && stamped == Some(item.record.(base := s))
      && l.seqNo == old(l.seqNo) + 1
      && (ValidateBase(s).Some? ==> err == ValidateBase(s) && l.written == old(l.written))
      && (ValidateBase(s).None? && writeErr.Some? ==> err == writeErr && l.written == old(l.written))
      && (ValidateBase(s).None? && writeErr.None? ==>
            err == None && l.written == old(l.written) + [item.record.(base := s)])
    ensures l != null ==> l.hasWriter == old(l.hasWriter)
  {
    if l == null || !l.hasWriter {
      return Some("logger not initialized"), None;
    }
    if item.NilRecord? {
      return Some("log record is nil"), None;
    }
    if item.MissingBase? {
      return Some("log record missing base event"), None;
    }
    l.seqNo := l.seqNo + 1;
    var base := StampBase(item.record.base, l.seqNo, nowUtc, nowMs, l.toolName, l.toolVersion, l.hostId);
    var rec := item.record.(base := base);
    stamped := Some(rec);
    err := ValidateBase(base);
    if err.Some? {
      return;
    }
    err := writeErr;
    if writeErr.None? {
      AcceptKeepsValid(l.written, l.seqNo - 1, rec);
      l.written := l.written + [rec];
    }
  }
}
