/** The configuration of internal/config/config.go and its `validate`. The
    TOML decoding and the file lookup of `Load` are not modelled: the
    configuration arrives already decoded. */
module Config {
  import opened Options
  import opened Text
  import opened Checks

  datatype LoggingConfig = LoggingConfig(dir: string, maxMb: int, maxFiles: int)
  datatype PingConfig = PingConfig(intervalMs: int, timeoutMs: int, windowSecs: int)
  datatype DnsConfig = DnsConfig(intervalMs: int, timeoutMs: int, queries: seq<string>, resolvers: seq<string>)
  datatype TracerouteConfig = TracerouteConfig(cooldownSecs: int, maxHops: int, timeoutMs: int)
  datatype TargetConfig = TargetConfig(name: string, host: string)
  datatype Config = Config(logging: LoggingConfig, ping: PingConfig, dns: DnsConfig,
                           traceroute: TracerouteConfig, targets: seq<TargetConfig>)

  /** A blank or whitespace-only value: one that `strings.TrimSpace` turns
      into "" (lemma `Text.TrimSpaceEmptyIff`). */
  predicate Blank(s: string) { AllSpace(s) }

  /** The fields `validate` checks, in the order it checks them. */
  datatype Field =
    | LoggingDir | LoggingMaxMb | LoggingMaxFiles
    | PingInterval | PingTimeout | PingWindow
    | DnsInterval | DnsTimeout | DnsQueries | DnsResolvers
    | TraceCooldown | TraceMaxHops | TraceTimeout
    | Targets

  /** One thing `validate` can report. */
  datatype Problem = FieldProblem(field: Field) | NameMissing(index: nat) | HostMissing(index: nat)

  /** `targets[<i>]` followed by `suffix`. */
  function Indexed(i: nat, suffix: string): string { "targets[" + NatToString(i) + "]" + suffix }

  /** The message `validate` appends for a problem. */
  function Message(p: Problem): string {
    match p
    case NameMissing(i) => Indexed(i, ".name is required")
    case HostMissing(i) => Indexed(i, ".host is required")
    case FieldProblem(f) =>
      match f
      case LoggingDir => "logging.dir is required"
      case LoggingMaxMb => "logging.max_mb must be > 0"
      case LoggingMaxFiles => "logging.max_files must be > 0"
      case PingInterval => "ping.interval_ms must be > 0"
      case PingTimeout => "ping.timeout_ms must be > 0"
      case PingWindow => "ping.window_secs must be > 0"
      case DnsInterval => "dns.interval_ms must be > 0"
      case DnsTimeout => "dns.timeout_ms must be > 0"
      case DnsQueries => "dns.queries must not be empty"
      case DnsResolvers => "dns.resolvers must not be empty"
      case TraceCooldown => "traceroute.cooldown_secs must be > 0"
      case TraceMaxHops => "traceroute.max_hops must be > 0"
      case TraceTimeout => "traceroute.timeout_ms must be > 0"
      case Targets => "targets must not be empty"
  }

  /** Whether a field passes its check: a non-blank directory, positive
      numbers, non-empty lists. */
  predicate FieldOk(c: Config, f: Field) {
    match f
    case LoggingDir => !Blank(c.logging.dir)
    case LoggingMaxMb => c.logging.maxMb > 0
    case LoggingMaxFiles => c.logging.maxFiles > 0
    case PingInterval => c.ping.intervalMs > 0
    case PingTimeout => c.ping.timeoutMs > 0
    case PingWindow => c.ping.windowSecs > 0
    case DnsInterval => c.dns.intervalMs > 0
    case DnsTimeout => c.dns.timeoutMs > 0
    case DnsQueries => |c.dns.queries| > 0
    case DnsResolvers => |c.dns.resolvers| > 0
    case TraceCooldown => c.traceroute.cooldownSecs > 0
    case TraceMaxHops => c.traceroute.maxHops > 0
    case TraceTimeout => c.traceroute.timeoutMs > 0
    case Targets => |c.targets| > 0
  }

  /** The fields in check order. */
  const FieldOrder: seq<Field> := [
    LoggingDir, LoggingMaxMb, LoggingMaxFiles, PingInterval, PingTimeout, PingWindow,
    DnsInterval, DnsTimeout, DnsQueries, DnsResolvers, TraceCooldown, TraceMaxHops,
    TraceTimeout, Targets]

  function FieldCheck(c: Config, f: Field): Check<Problem> { Check(FieldOk(c, f), FieldProblem(f)) }

  /** The checks on the scalar and list fields, in the order `validate` makes them. */
  function FieldChecks(c: Config): (cs: seq<Check<Problem>>)
    ensures |cs| == 14
  {
    [ FieldCheck(c, LoggingDir), FieldCheck(c, LoggingMaxMb), FieldCheck(c, LoggingMaxFiles),
      FieldCheck(c, PingInterval), FieldCheck(c, PingTimeout), FieldCheck(c, PingWindow),
      FieldCheck(c, DnsInterval), FieldCheck(c, DnsTimeout), FieldCheck(c, DnsQueries),
      FieldCheck(c, DnsResolvers), FieldCheck(c, TraceCooldown), FieldCheck(c, TraceMaxHops),
      FieldCheck(c, TraceTimeout), FieldCheck(c, Targets) ]
  }

  /** The two checks on the target at index `i`. */
  function TargetPair(i: nat, t: TargetConfig): seq<Check<Problem>> {
    [Check(!Blank(t.name), NameMissing(i)), Check(!Blank(t.host), HostMissing(i))]
  }

  /** The checks on every target, in list order. */
  function TargetChecks(ts: seq<TargetConfig>): (cs: seq<Check<Problem>>)
    ensures |cs| == 2 * |ts|
  {
    if ts == [] then [] else TargetChecks(ts[..|ts| - 1]) + TargetPair(|ts| - 1, ts[|ts| - 1])
  }

  /** The problems `validate` finds, in the order it finds them. */
  function Failures(c: Config): seq<Problem> {
    Failing(FieldChecks(c) + TargetChecks(c.targets))
  }

  function Messages(ps: seq<Problem>): (ms: seq<string>)
    ensures |ms| == |ps|
  {
    if ps == [] then [] else Messages(ps[..|ps| - 1]) + [Message(ps[|ps| - 1])]
  }

  /** What `validate` returns: nil, or every message joined with "; ". */
  function ValidateSpec(c: Config): Option<string> {
    var fs := Failures(c);
    if fs == [] then None else Some(Join(Messages(fs), "; "))
  }

  /** A configuration with nothing wrong. */
  predicate WellFormed(c: Config) {
    && (forall f :: FieldOk(c, f))
    && forall i :: 0 <= i < |c.targets| ==> !Blank(c.targets[i].name) && !Blank(c.targets[i].host)
  }

  // ---------------------------------------------------------------- lemmas

  /** The checks of target `i` sit at positions `2i` and `2i + 1`. */
  lemma {:induction false} TargetChecksAt(ts: seq<TargetConfig>, i: nat)
    requires i < |ts|
    ensures TargetChecks(ts)[2 * i] == Check(!Blank(ts[i].name), NameMissing(i))
    ensures TargetChecks(ts)[2 * i + 1] == Check(!Blank(ts[i].host), HostMissing(i))
    decreases |ts|
  {
    if i < |ts| - 1 {
      TargetChecksAt(ts[..|ts| - 1], i);
    }
  }

  /** Every target check passes exactly when no target has a blank name or host. */
  lemma {:induction false} TargetChecksPass(ts: seq<TargetConfig>)
    ensures AllOk(TargetChecks(ts)) <==>
            (forall i :: 0 <= i < |ts| ==> !Blank(ts[i].name) && !Blank(ts[i].host))
    decreases |ts|
  {
    if ts != [] {
      var n := |ts| - 1;
      var init := ts[..n];
      TargetChecksPass(init);
      var pair := TargetPair(n, ts[n]);
      AllOkAppend(TargetChecks(init), pair);
      assert forall i :: 0 <= i < n ==> init[i] == ts[i];
      assert AllOk(pair) <==> pair[0].ok && pair[1].ok;
    }
  }

  /** The field checks all pass exactly when every field passes. */
  lemma FieldChecksPass(c: Config)
    ensures AllOk(FieldChecks(c)) <==> forall f :: FieldOk(c, f)
  {
    var fc := FieldChecks(c);
    if AllOk(fc) {
      forall f ensures FieldOk(c, f) {
        var k := FieldIndex(f);
        assert fc[k].ok;
      }
    }
  }

  /** The position of a field's check. */
  function FieldIndex(f: Field): (k: nat)
    ensures k < 14 && FieldOrder[k] == f
  {
    match f
    case LoggingDir => 0 case LoggingMaxMb => 1 case LoggingMaxFiles => 2
    case PingInterval => 3 case PingTimeout => 4 case PingWindow => 5
    case DnsInterval => 6 case DnsTimeout => 7 case DnsQueries => 8
    case DnsResolvers => 9 case TraceCooldown => 10 case TraceMaxHops => 11
    case TraceTimeout => 12 case Targets => 13
  }

  /** Each position of the field order holds a different field. */
  lemma FieldOrderIndex(k: nat)
    requires k < 14
    ensures FieldIndex(FieldOrder[k]) == k
  {
  }

  /** The field checks follow the field order. */
  lemma FieldChecksInOrder(c: Config)
    ensures forall k :: 0 <= k < 14 ==> FieldChecks(c)[k] == FieldCheck(c, FieldOrder[k])
  {
  }

  /** `validate` returns nil exactly when the configuration is well formed,
      and its message is never empty. */
  lemma ValidateNoneIff(c: Config)
    ensures ValidateSpec(c).None? <==> WellFormed(c)
    ensures ValidateSpec(c).Some? ==> ValidateSpec(c).value != ""
  {
    var fc, tc := FieldChecks(c), TargetChecks(c.targets);
    FailingEmptyIff(fc + tc);
    AllOkAppend(fc, tc);
    FieldChecksPass(c);
    TargetChecksPass(c.targets);
    var fs := Failures(c);
    if fs != [] {
      var ms := Messages(fs);
      MessageNonEmpty(fs[|fs| - 1]);
      JoinNonEmpty(ms, "; ");
    }
  }

  lemma MessageNonEmpty(p: Problem)
    ensures Message(p) != ""
  {
  }

  /** A join whose last element is non-empty is non-empty. */
  lemma JoinNonEmpty(xs: seq<string>, sep: string)
    requires xs != [] && xs[|xs| - 1] != ""
    ensures Join(xs, sep) != ""
  {
  }

  /** Field checks report only field problems. */
  lemma FieldFailuresAreFieldProblems(c: Config)
    ensures forall p :: p in Failing(FieldChecks(c)) ==> p.FieldProblem?
  {
    var fc := FieldChecks(c);
    FieldChecksInOrder(c);
    forall p: Problem | !p.FieldProblem? ensures p !in Failing(fc) {
      FailingAbsent(fc, p);
    }
  }

  /** Target checks report only target problems, each naming a listed index. */
  lemma {:induction false} TargetFailuresAreTargetProblems(ts: seq<TargetConfig>)
    ensures forall p :: p in Failing(TargetChecks(ts)) ==> !p.FieldProblem? && p.index < |ts|
    decreases |ts|
  {
    if ts != [] {
      var n := |ts| - 1;
      TargetFailuresAreTargetProblems(ts[..n]);
      FailingAppend(TargetChecks(ts[..n]), TargetPair(n, ts[n]));
      var pair := TargetPair(n, ts[n]);
      assert pair[..1][..0] == [];
      assert Failing(pair[..1]) == if pair[0].ok then [] else [NameMissing(n)];
      assert Failing(pair) == Failing(pair[..1]) + if pair[1].ok then [] else [HostMissing(n)];
    }
  }

  /** Each field adds its own problem exactly when its check fails. */
  lemma FieldProblemIff(c: Config, f: Field)
    ensures FieldProblem(f) in Failures(c) <==> !FieldOk(c, f)
  {
    var fc, tc := FieldChecks(c), TargetChecks(c.targets);
    FailingAppend(fc, tc);
    TargetFailuresAreTargetProblems(c.targets);
    var k := FieldIndex(f);
    FieldChecksInOrder(c);
    forall j | 0 <= j < 14 && j != k ensures fc[j].msg != fc[k].msg {
      FieldOrderIndex(j);
    }
    FailingUniqueMember(fc, k);
  }

  /** Target `i`'s problems sit only at its own two positions. */
  lemma TargetProblemsUnique(ts: seq<TargetConfig>, i: nat)
    requires i < |ts|
    ensures forall j :: 0 <= j < |TargetChecks(ts)| && j != 2 * i ==> TargetChecks(ts)[j].msg != NameMissing(i)
    ensures forall j :: 0 <= j < |TargetChecks(ts)| && j != 2 * i + 1 ==> TargetChecks(ts)[j].msg != HostMissing(i)
  {
    var tc := TargetChecks(ts);
    forall j | 0 <= j < |tc|
      ensures j != 2 * i ==> tc[j].msg != NameMissing(i)
      ensures j != 2 * i + 1 ==> tc[j].msg != HostMissing(i)
    {
      var i' := j / 2;
      TargetChecksAt(ts, i');
      assert j == 2 * i' || j == 2 * i' + 1;
    }
  }

  /** A blank name or host of target `i` adds the problem naming index `i`,
      and a present one does not. */
  lemma TargetProblemIff(c: Config, i: nat)
    requires i < |c.targets|
    ensures NameMissing(i) in Failures(c) <==> Blank(c.targets[i].name)
    ensures HostMissing(i) in Failures(c) <==> Blank(c.targets[i].host)
  {
    var fc, tc := FieldChecks(c), TargetChecks(c.targets);
    FailingAppend(fc, tc);
    FieldFailuresAreFieldProblems(c);
    TargetChecksAt(c.targets, i);
    TargetProblemsUnique(c.targets, i);
    FailingUniqueMember(tc, 2 * i);
    FailingUniqueMember(tc, 2 * i + 1);
  }

  /** Distinct target problems have distinct messages: the index ends at the
      first `]`, and `.name` differs from `.host`. */
  lemma TargetMessagesDistinct(p: Problem, q: Problem)
    requires !p.FieldProblem? && !q.FieldProblem?
    ensures Message(p) == Message(q) ==> p == q
  {
    var sp := if p.NameMissing? then ".name is required" else ".host is required";
    var sq := if q.NameMissing? then ".name is required" else ".host is required";
    IndexedDistinct(p.index, q.index, sp, sq);
    assert ".name is required"[1] != ".host is required"[1];
  }

  /** `targets[<i>]<x>` determines `i` and `x`. */
  lemma IndexedDistinct(i: nat, j: nat, x: string, y: string)
    ensures Indexed(i, x) == Indexed(j, y) ==> i == j && x == y
  {
    var a, b := NatToString(i), NatToString(j);
    var s, t := Indexed(i, x), Indexed(j, y);
    if s == t {
      assert s[8..] == a + "]" + x && t[8..] == b + "]" + y;
      DigitsThenBracket(a, x, b, y);
      NatToStringInjective(i, j);
    }
  }

  /** Two digit strings each followed by `]` can only be equal with equal parts. */
  lemma DigitsThenBracket(a: string, x: string, b: string, y: string)
    requires AllDigits(a) && AllDigits(b)
    requires a + "]" + x == b + "]" + y
    ensures a == b && x == y
  {
    var s := a + "]" + x;
    assert |a| < |s| && s[|a|] == ']';
    assert |b| < |s| && s[|b|] == ']';
    assert forall k :: 0 <= k < |a| ==> s[k] == a[k];
    assert forall k :: 0 <= k < |b| ==> s[k] == b[k];
    assert |a| == |b|;
    assert a == s[..|a|] == b;
    assert x == s[|a| + 1..] == y;
  }

  // ------------------------------------------------------------ validate

  /** Appending one check's outcome to the collected messages. */
  lemma CollectStep(cs: seq<Check<Problem>>, k: nat)
    requires k < |cs|
    ensures Messages(Failing(cs[..k + 1])) ==
      Messages(Failing(cs[..k])) + if cs[k].ok then [] else [Message(cs[k].msg)]
  {
    var init := cs[..k + 1];
    assert init[..k] == cs[..k] && init[k] == cs[k];
    var f := Failing(cs[..k]);
    assert Failing(init) == f + if cs[k].ok then [] else [cs[k].msg];
    if !cs[k].ok {
      MessagesSnoc(f, cs[k].msg);
    } else {
      assert f + [] == f;
    }
  }

  lemma MessagesSnoc(ps: seq<Problem>, p: Problem)
    ensures Messages(ps + [p]) == Messages(ps) + [Message(p)]
  {
    assert (ps + [p])[..|ps|] == ps;
  }

  /** The problem a field adds, if any. */
  function FieldProblems(c: Config, f: Field): (ps: seq<Problem>)
    ensures ps == [] <==> FieldOk(c, f)
  {
    if FieldOk(c, f) then [] else [FieldProblem(f)]
  }

  /** The problems of the first `k` fields of the check order. */
  function FieldProblemsUpTo(c: Config, k: nat): seq<Problem>
    requires k <= 14
  {
    if k == 0 then [] else FieldProblemsUpTo(c, k - 1) + FieldProblems(c, FieldOrder[k - 1])
  }

  /** Collecting field by field reports the failing field checks in order. */
  lemma {:induction false} FieldProblemsUpToFailing(c: Config, k: nat)
    requires k <= 14
    ensures FieldProblemsUpTo(c, k) == Failing(FieldChecks(c)[..k])
  {
    if k > 0 {
      FieldProblemsUpToFailing(c, k - 1);
      var cs := FieldChecks(c);
      FieldChecksInOrder(c);
      assert cs[..k][..k - 1] == cs[..k - 1];
    }
  }

  /** The test `strings.TrimSpace(s) == ""` that `validate` makes. */
  method IsBlank(s: string) returns (b: bool)
    ensures b <==> Blank(s)
  {
    TrimSpaceEmptyIff(s);
    b := TrimSpace(s) == "";
  }

  /** The `logging` checks of `validate`. */
  method CheckLogging(c: Config, problems: seq<Problem>) returns (r: seq<Problem>)
    requires problems == FieldProblemsUpTo(c, 0)
    ensures r == FieldProblemsUpTo(c, 3)
  {
    r := problems;
    var blankDir := IsBlank(c.logging.dir);
    if blankDir { r := r + [FieldProblem(LoggingDir)]; }
    assert r == FieldProblemsUpTo(c, 1);
    if c.logging.maxMb <= 0 { r := r + [FieldProblem(LoggingMaxMb)]; }
    assert r == FieldProblemsUpTo(c, 2);
    if c.logging.maxFiles <= 0 { r := r + [FieldProblem(LoggingMaxFiles)]; }
  }

  /** The `ping` checks of `validate`. */
  method CheckPing(c: Config, problems: seq<Problem>) returns (r: seq<Problem>)
    requires problems == FieldProblemsUpTo(c, 3)
    ensures r == FieldProblemsUpTo(c, 6)
  {
    r := problems;
    if c.ping.intervalMs <= 0 { r := r + [FieldProblem(PingInterval)]; }
    assert r == FieldProblemsUpTo(c, 4);
    if c.ping.timeoutMs <= 0 { r := r + [FieldProblem(PingTimeout)]; }
    assert r == FieldProblemsUpTo(c, 5);
    if c.ping.windowSecs <= 0 { r := r + [FieldProblem(PingWindow)]; }
  }

  /** The `dns` checks of `validate`. */
  method CheckDns(c: Config, problems: seq<Problem>) returns (r: seq<Problem>)
    requires problems == FieldProblemsUpTo(c, 6)
    ensures r == FieldProblemsUpTo(c, 10)
  {
    r := problems;
    if c.dns.intervalMs <= 0 { r := r + [FieldProblem(DnsInterval)]; }
    assert r == FieldProblemsUpTo(c, 7);
    if c.dns.timeoutMs <= 0 { r := r + [FieldProblem(DnsTimeout)]; }
    assert r == FieldProblemsUpTo(c, 8);
    if |c.dns.queries| == 0 { r := r + [FieldProblem(DnsQueries)]; }
    assert r == FieldProblemsUpTo(c, 9);
    if |c.dns.resolvers| == 0 { r := r + [FieldProblem(DnsResolvers)]; }
  }

  /** The `traceroute` and `targets` checks of `validate`. */
  method CheckTraceroute(c: Config, problems: seq<Problem>) returns (r: seq<Problem>)
    requires problems == FieldProblemsUpTo(c, 10)
    ensures r == FieldProblemsUpTo(c, 14)
  {
    r := problems;
    if c.traceroute.cooldownSecs <= 0 { r := r + [FieldProblem(TraceCooldown)]; }
    assert r == FieldProblemsUpTo(c, 11);
    if c.traceroute.maxHops <= 0 { r := r + [FieldProblem(TraceMaxHops)]; }
    assert r == FieldProblemsUpTo(c, 12);
    if c.traceroute.timeoutMs <= 0 { r := r + [FieldProblem(TraceTimeout)]; }
    assert r == FieldProblemsUpTo(c, 13);
    if |c.targets| == 0 { r := r + [FieldProblem(Targets)]; }
  }

  /** The straight-line part of `validate`: each field check in order. The
      problems stand for the messages `Message` renders for them. */
  method CheckFields(c: Config) returns (problems: seq<Problem>)
    ensures problems == Failing(FieldChecks(c))
  {
    problems := CheckLogging(c, []);
    problems := CheckPing(c, problems);
    problems := CheckDns(c, problems);
    problems := CheckTraceroute(c, problems);
    FieldProblemsUpToFailing(c, 14);
    assert FieldChecks(c)[..14] == FieldChecks(c);
  }

  /** `Config.validate`: the field checks, a loop over the targets, then
      the messages joined with "; ". */
  method Validate(c: Config) returns (err: Option<string>)
    ensures err == ValidateSpec(c)
  {
    var problems := CheckFields(c);
    ghost var fc := FieldChecks(c);
    assert fc + TargetChecks(c.targets[..0]) == fc;
    for i := 0 to |c.targets|
      invariant problems == Failing(fc + TargetChecks(c.targets[..i]))
    {
      var t := c.targets[i];
      ghost var before := fc + TargetChecks(c.targets[..i]);
      assert c.targets[..i + 1][..i] == c.targets[..i];
      assert TargetChecks(c.targets[..i + 1]) == TargetChecks(c.targets[..i]) + TargetPair(i, t);
      assert fc + TargetChecks(c.targets[..i + 1]) == before + TargetPair(i, t);
      TargetStep(before, i, t);
      var blankName := IsBlank(t.name);
      if blankName { problems := problems + [NameMissing(i)]; }
      var blankHost := IsBlank(t.host);
      if blankHost { problems := problems + [HostMissing(i)]; }
    }
    assert c.targets[..|c.targets|] == c.targets;
    if |problems| > 0 {
      err := Some(Join(Messages(problems), "; "));
    } else {
      err := None;
    }
  }

  /** Appending one target's pair of checks reports its blank name, then its blank host. */
  lemma TargetStep(before: seq<Check<Problem>>, i: nat, t: TargetConfig)
    ensures Failing(before + TargetPair(i, t)) ==
      Failing(before) + (if Blank(t.name) then [NameMissing(i)] else [])
                      + (if Blank(t.host) then [HostMissing(i)] else [])
  {
    var pair := TargetPair(i, t);
    FailingAppend(before, pair);
    assert pair[..1][..0] == [];
    assert Failing(pair[..1]) == if pair[0].ok then [] else [NameMissing(i)];
  }
}
