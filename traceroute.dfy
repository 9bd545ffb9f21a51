/** The traceroute text parser and path fingerprint
    (internal/traceroute/traceroute.go): the scanner's lines, the `hopLine`
    regular expression, hop extraction, the `"TTL:IP|"` serialisation that is
    hashed, and the assembly of a run's result from the command's output and
    error. The command itself and SHA-256 are outside the model: the output is
    an input and the digest is a function parameter. */
module Traceroute {
  import opened Options
  import opened Text

  datatype Hop = Hop(ttl: nat, ip: string, rttMs: real)

  datatype TraceResult = TraceResult(hops: seq<Hop>, pathHash: string, err: string)

  // ------------------------------------------------------------ the scanner

  function DropCR(s: string): string {
    if |s| > 0 && s[|s| - 1] == '\r' then s[..|s| - 1] else s
  }

  /** The first position of `c` in `s`, if any. */
  function IndexOf(s: string, c: char): (r: Option<nat>)
    ensures r.Some? ==> r.value < |s| && s[r.value] == c && forall k :: 0 <= k < r.value ==> s[k] != c
    ensures r.None? ==> c !in s
  {
    if |s| == 0 then None
    else if s[0] == c then Some(0)
    else match IndexOf(s[1..], c)
      case Some(i) => Some(i + 1)
      case None => None
  }

  /** The tokens of `bufio.Scanner` with `ScanLines`: the text split at each
      '\n', one trailing '\r' dropped from each piece, and no token for an
      empty remainder after the final '\n'. */
  function Lines(s: string): (r: seq<string>)
    ensures forall i :: 0 <= i < |r| ==> '\n' !in r[i]
    ensures r == [] <==> s == ""
    decreases |s|
  {
    if s == "" then []
    else match IndexOf(s, '\n')
      case None => [DropCR(s)]
      case Some(i) => [DropCR(s[..i])] + Lines(s[i + 1..])
  }

  // ------------------------------------------------------ the hop-line regex

  /** RE2's `\s`: space, \t, \n, \f and \r (not \v). */
  predicate IsRegexSpace(c: char) {
    c == ' ' || c == '\t' || c == '\n' || c == '\U{000C}' || c == '\r'
  }

  predicate AllRegexSpace(s: string) { forall i :: 0 <= i < |s| ==> IsRegexSpace(s[i]) }

  /** The length of the leading run of `\s` characters. */
  function SpaceRun(s: string): (n: nat)
    ensures n <= |s|
    ensures forall i :: 0 <= i < n ==> IsRegexSpace(s[i])
    ensures n < |s| ==> !IsRegexSpace(s[n])
  {
    if |s| == 0 || !IsRegexSpace(s[0]) then 0 else 1 + SpaceRun(s[1..])
  }

  /** The length of the leading run of `\d` characters. */
  function DigitRun(s: string): (n: nat)
    ensures n <= |s|
    ensures forall i :: 0 <= i < n ==> IsDigit(s[i])
    ensures n < |s| ==> !IsDigit(s[n])
  {
    if |s| == 0 || !IsDigit(s[0]) then 0 else 1 + DigitRun(s[1..])
  }

  /** The two capture groups of `^\s*(\d+)\s+(.+)$`. */
  datatype Captures = Captures(ttl: string, rest: string)

  /** One way the whole of `line` matches `^\s*(\d+)\s+(.+)$`: leading `\s*`,
      the digits, the `\s+` separator and the rest (`.` excludes '\n'). */
  predicate Decomposes(line: string, lead: string, digits: string, sep: string, rest: string) {
    && line == lead + digits + sep + rest
    && AllRegexSpace(lead)
    && digits != [] && AllDigits(digits)
    && sep != [] && AllRegexSpace(sep)
    && rest != [] && '\n' !in rest
  }

  /** The length of the `\s+` separator at the start of `after`, when the
      rest of the line can still match `(.+)$`: greedy repetition takes the
      whole space run and gives one character back when nothing would
      otherwise be left for the rest. */
  function SepCut(after: string): (m: Option<nat>)
    ensures m.Some? ==> 0 < m.value < |after| && AllRegexSpace(after[..m.value]) && '\n' !in after[m.value..]
  {
    var w := SpaceRun(after);
    if w == 0 || (w == |after| && w < 2) then None
    else
      var cut := if w < |after| then w else w - 1;
      if '\n' in after[cut..] then None
      else
        RegexSpacePrefix(after, cut);
        Some(cut)
  }

  /** `hopLine.FindStringSubmatch`: the leftmost-first match with greedy
      repetition: leading `\s*`, the digit run, the separator, the rest. */
  function MatchHopLine(line: string): (m: Option<Captures>)
    ensures m.Some? ==> m.value.ttl != [] && AllDigits(m.value.ttl)
  {
    var a := SpaceRun(line);
    var s := line[a..];
    var k := DigitRun(s);
    if k == 0 then None
    else
      match SepCut(s[k..])
      case None => None
      case Some(cut) => Some(Captures(s[..k], s[k..][cut..]))
  }

  /** Every match is a decomposition of the line. */
  lemma MatchHopLineSound(line: string) returns (lead: string, sep: string)
    ensures MatchHopLine(line).Some? ==>
      Decomposes(line, lead, MatchHopLine(line).value.ttl, sep, MatchHopLine(line).value.rest)
  {
    lead, sep := "", "";
    var m := MatchHopLine(line);
    if m.Some? {
      var c := m.value;
      var a := SpaceRun(line);
      var s := line[a..];
      var k := DigitRun(s);
      var after := s[k..];
      var cut := SepCut(after).value;
      lead, sep := line[..a], after[..cut];
      assert c.ttl == s[..k] && c.rest == after[cut..];
      RegexSpacePrefix(line, a);
      SplitAt(line, a);
      SplitAt(s, k);
      SplitAt(after, cut);
      Regroup(line, lead, s, c.ttl, after, sep, c.rest);
    }
  }

  lemma Regroup(x: string, p: string, y: string, q: string, z: string, r: string, u: string)
    requires x == p + y && y == q + z && z == r + u
    ensures x == p + q + r + u
  {
  }

  lemma SplitAt(s: string, i: nat)
    requires i <= |s|
    ensures s == s[..i] + s[i..]
  {
  }

  /** A prefix of a `\s` run is all `\s`. */
  lemma RegexSpacePrefix(s: string, n: nat)
    requires n <= SpaceRun(s)
    ensures AllRegexSpace(s[..n])
  {
  }

  /** Every decomposition makes the line match, with the same digits, and
      the captured rest is the shortest one any decomposition leaves. */
  lemma MatchHopLineComplete(line: string, lead: string, digits: string, sep: string, rest: string)
    requires Decomposes(line, lead, digits, sep, rest)
    ensures MatchHopLine(line).Some?
    ensures MatchHopLine(line).value.ttl == digits
    ensures |MatchHopLine(line).value.rest| <= |rest|
  {
    var s := digits + sep + rest;
    Regroup(line, lead, s, digits, sep + rest, sep, rest);
    assert s[0] == digits[0];
    SpaceRunIs(line, lead, s);
    assert (sep + rest)[0] == sep[0];
    DigitRunIs(s, digits, sep + rest);
    SepCutComplete(sep, rest);
  }

  /** A `\s+` separator followed by a non-empty rest: the separator is found,
      at least as long as `sep`, so the rest it leaves is no longer. */
  lemma SepCutComplete(sep: string, rest: string)
    requires sep != [] && AllRegexSpace(sep) && rest != [] && '\n' !in rest
    ensures SepCut(sep + rest).Some? && |(sep + rest)[SepCut(sep + rest).value..]| <= |rest|
  {
    var after := sep + rest;
    var w := SpaceRun(after);
    SpaceRunAtLeast(after, |sep|);
    if w < |after| {
      assert after[w..] == rest[w - |sep|..];
    } else {
      assert after[w - 1..] == rest[|rest| - 1..];
    }
  }

  /** A `\s` prefix followed by a non-`\s` character is the whole leading run. */
  lemma SpaceRunIs(line: string, lead: string, t: string)
    requires line == lead + t && AllRegexSpace(lead) && t != [] && !IsRegexSpace(t[0])
    ensures SpaceRun(line) == |lead| && line[|lead|..] == t
  {
    var n := SpaceRun(line);
    assert forall i :: 0 <= i < |lead| ==> line[i] == lead[i];
    SpaceRunAtLeast(line, |lead|);
    assert line[|lead|] == t[0];
    if n > |lead| {
      assert false;
    }
  }

  /** Digits followed by a non-digit are the whole leading digit run. */
  lemma DigitRunIs(s: string, digits: string, t: string)
    requires s == digits + t && AllDigits(digits) && t != [] && !IsDigit(t[0])
    ensures DigitRun(s) == |digits| && s[..|digits|] == digits && s[|digits|..] == t
  {
    var n := DigitRun(s);
    assert forall i :: 0 <= i < |digits| ==> s[i] == digits[i];
    assert s[|digits|] == t[0];
    if n < |digits| {
      assert false;
    } else if n > |digits| {
      assert false;
    }
  }

  /** A string starting with `m` `\s` characters has a leading run at least that long. */
  lemma SpaceRunAtLeast(s: string, m: nat)
    requires m <= |s| && forall i :: 0 <= i < m ==> IsRegexSpace(s[i])
    ensures SpaceRun(s) >= m
  {
    var n := SpaceRun(s);
    if n < m {
      assert false;
    }
  }

  // ------------------------------------------------------------ numbers

  function Pow10(n: nat): (p: nat)
    ensures p >= 1
  {
    if n == 0 then 1 else 10 * Pow10(n - 1)
  }

  /** An unsigned decimal `d+`, `d+.d*` or `.d+`, as an exact value. */
  function ParseDecimal(s: string): Option<real> {
    match IndexOf(s, '.')
    case None =>
      if s != [] && AllDigits(s) then Some(DigitsValue(s) as real) else None
    case Some(p) =>
      var whole, frac := s[..p], s[p + 1..];
      if (whole != [] || frac != []) && AllDigits(whole) && AllDigits(frac)
      then Some(DigitsValue(whole) as real + DigitsValue(frac) as real / Pow10(|frac|) as real)
      else None
  }

  /** `strconv.ParseFloat(s, 64)` with its error ignored: the value, or 0. */
  function ParseFloat(s: string): real {
    ParseDecimal(s).GetOr(0.0)
  }

  // ------------------------------------------------------------ hops

  /** The smallest index `j >= from`, `j >= 1`, with `fields[j] == "ms"`. */
  function FirstMsFrom(fields: seq<string>, from: nat): (r: Option<nat>)
    requires from >= 1
    ensures r.Some? ==> from <= r.value < |fields| && fields[r.value] == "ms"
                        && forall k :: from <= k < r.value ==> fields[k] != "ms"
    ensures r.None? ==> forall k :: from <= k < |fields| ==> fields[k] != "ms"
    decreases |fields| - from
  {
    if from >= |fields| then None
    else if fields[from] == "ms" then Some(from)
    else FirstMsFrom(fields, from + 1)
  }

  /** `parseHop` as a function: no address for a starred or too-short rest,
      otherwise the first field and the number before the first "ms" field. */
  function HopFields(rest: string): (string, real) {
    if '*' in rest then ("", 0.0)
    else
      var fields := Fields(rest);
      if |fields| < 2 then ("", 0.0)
      else (fields[0], match FirstMsFrom(fields, 1)
                       case Some(j) => ParseFloat(fields[j - 1])
                       case None => 0.0)
  }

  /** What `parseHop` promises: a "*" anywhere or fewer than two fields give
      ("", 0); otherwise the address is the first field and the RTT is read
      from the field just before the first "ms" field, or is 0 without one. */
  lemma HopFieldsCases(rest: string)
    ensures var (ip, rtt) := HopFields(rest);
      var fields := Fields(rest);
      && ('*' in rest || |fields| < 2 ==> ip == "" && rtt == 0.0)
      && ('*' !in rest && |fields| >= 2 ==>
            && ip == fields[0] && ip != ""
            && ((forall k :: 1 <= k < |fields| ==> fields[k] != "ms") ==> rtt == 0.0)
            && (forall j :: (1 <= j < |fields| && fields[j] == "ms"
                             && (forall k :: 1 <= k < j ==> fields[k] != "ms")) ==>
                  rtt == ParseFloat(fields[j - 1])))
  {
    var fields := Fields(rest);
    if '*' !in rest && |fields| >= 2 {
      match FirstMsFrom(fields, 1)
      case Some(j0) =>
        forall j | (1 <= j < |fields| && fields[j] == "ms" && (forall k :: 1 <= k < j ==> fields[k] != "ms"))
          ensures j == j0
        {
        }
      case None =>
    }
  }

  /** `parseHop`: scan the fields after the address for the first "ms". */
  method ParseHop(rest: string) returns (ip: string, rtt: real)
    ensures (ip, rtt) == HopFields(rest)
  {
    if '*' in rest {
      return "", 0.0;
    }
    var fields := Fields(rest);
    if |fields| < 2 {
      return "", 0.0;
    }
    ip := fields[0];
    rtt := 0.0;
    var i := 1;
    while i < |fields|
      invariant 1 <= i <= |fields|
      invariant FirstMsFrom(fields, i) == FirstMsFrom(fields, 1)
      invariant rtt == 0.0
    {
      if fields[i] == "ms" && i > 0 {
        rtt := ParseFloat(fields[i - 1]);
        break;
      }
      i := i + 1;
    }
  }

  /** A scanner line's hop: none for a blank line, a `traceroute` header or a
      line not matching `hopLine`; otherwise the TTL from the digits and the
      address and RTT from the rest. */
  function LineHop(raw: string): Option<Hop> {
    var line := TrimSpace(raw);
    if line == "" || HasPrefix(line, "traceroute") then None
    else match MatchHopLine(line)
      case None => None
      case Some(c) =>
        var (ip, rtt) := HopFields(c.rest);
        Some(Hop(DigitsValue(c.ttl), ip, rtt))
  }

  /** The present results of `f` over `xs`, in order. */
  function Collect<T>(xs: seq<string>, f: string -> Option<T>): (r: seq<T>)
    ensures |r| <= |xs|
  {
    if xs == [] then []
    else Collect(xs[..|xs| - 1], f) + match f(xs[|xs| - 1]) case Some(y) => [y] case None => []
  }

  /** The items of a concatenation are collected independently and in order. */
  lemma {:induction false} CollectAppend<T>(a: seq<string>, b: seq<string>, f: string -> Option<T>)
    ensures Collect(a + b, f) == Collect(a, f) + Collect(b, f)
    decreases |b|
  {
    if b == [] {
      assert a + b == a;
    } else {
      var b' := b[..|b| - 1];
      CollectAppend(a, b', f);
      assert (a + b)[..|a + b| - 1] == a + b';
    }
  }

  /** The hops of a sequence of lines, one per hop line, in line order. */
  function HopsOf(lines: seq<string>): seq<Hop> {
    Collect(lines, LineHop)
  }

  /** `parseOutput` as a function of the command's output. */
  function ParseOutputSpec(out: string): seq<Hop> {
    HopsOf(Lines(out))
  }

  /** Lines contribute their hops independently and in order: a line yields
      its hop when it has one and nothing otherwise. */
  lemma HopsOfAppend(a: seq<string>, b: seq<string>)
    ensures HopsOf(a + b) == HopsOf(a) + HopsOf(b)
    ensures HopsOf([]) == []
    ensures forall l :: HopsOf([l]) == match LineHop(l) case Some(h) => [h] case None => []
  {
    CollectAppend(a, b, LineHop);
    forall l ensures HopsOf([l]) == match LineHop(l) case Some(h) => [h] case None => [] {
      assert [l][..0] == [];
    }
  }

  /** Blank lines and `traceroute` headers yield nothing; a trimmed line that
      decomposes as digits, spaces and a rest yields exactly one hop whose TTL
      is the value of those digits. */
  lemma LineHopCases(raw: string)
    ensures TrimSpace(raw) == "" ==> LineHop(raw) == None
    ensures HasPrefix(TrimSpace(raw), "traceroute") ==> LineHop(raw) == None
    ensures forall lead, digits, sep, rest ::
      Decomposes(TrimSpace(raw), lead, digits, sep, rest) && !HasPrefix(TrimSpace(raw), "traceroute") ==>
        LineHop(raw).Some? && LineHop(raw).value.ttl == DigitsValue(digits)
  {
    var line := TrimSpace(raw);
    forall lead, digits, sep, rest | Decomposes(line, lead, digits, sep, rest) && !HasPrefix(line, "traceroute")
      ensures LineHop(raw).Some? && LineHop(raw).value.ttl == DigitsValue(digits)
    {
      MatchHopLineComplete(line, lead, digits, sep, rest);
    }
  }

  /** A prefix one longer is the prefix and the next element. */
  lemma PrefixSnoc<T>(s: seq<T>, i: nat)
    requires i < |s|
    ensures s[..i + 1] == s[..i] + [s[i]]
  {
  }

  /** `parseOutput`: walk the scanner's lines, skip the ones without a hop,
      collect one hop per remaining line. */
  method ParseOutput(out: string) returns (hops: seq<Hop>)
    ensures hops == ParseOutputSpec(out)
  {
    var lines := Lines(out);
    hops := [];
    for i := 0 to |lines|
      invariant hops == HopsOf(lines[..i])
    {
      PrefixSnoc(lines, i);
      HopsOfAppend(lines[..i], [lines[i]]);
      assert HopsOf(lines[..i + 1]) == hops + HopsOf([lines[i]]);
      var line := TrimSpace(lines[i]);
      if line == "" || HasPrefix(line, "traceroute") {
        assert LineHop(lines[i]) == None;
        assert HopsOf(lines[..i + 1]) == hops + [] == hops;
        continue;
      }
      var m := MatchHopLine(line);
      if m.None? {
        assert LineHop(lines[i]) == None;
        assert HopsOf(lines[..i + 1]) == hops + [] == hops;
        continue;
      }
      var ttl := DigitsValue(m.value.ttl);
      var ip, rtt := ParseHop(m.value.rest);
      assert LineHop(lines[i]) == Some(Hop(ttl, ip, rtt));
      assert HopsOf(lines[..i + 1]) == hops + [Hop(ttl, ip, rtt)];
      hops := hops + [Hop(ttl, ip, rtt)];
    }
    assert lines[..|lines|] == lines;
  }

  // ------------------------------------------------------------ fingerprint

  /** `fmt.Sprintf("%d:%s|", h.TTL, h.IP)`. */
  function HopEntry(h: Hop): string {
    NatToString(h.ttl) + ":" + h.ip + "|"
  }

  /** The concatenation of `f` over `xs`, in order. */
  function ConcatMap<T>(xs: seq<T>, f: T -> string): string {
    if xs == [] then "" else ConcatMap(xs[..|xs| - 1], f) + f(xs[|xs| - 1])
  }

  lemma {:induction false} ConcatMapAppend<T>(a: seq<T>, b: seq<T>, f: T -> string)
    ensures ConcatMap(a + b, f) == ConcatMap(a, f) + ConcatMap(b, f)
    decreases |b|
  {
    if b == [] {
      assert a + b == a;
    } else {
      var b' := b[..|b| - 1];
      ConcatMapAppend(a, b', f);
      assert (a + b)[..|a + b| - 1] == a + b';
    }
  }

  /** The concatenation around one element: before it, its image, after it. */
  lemma ConcatMapAround<T>(a: seq<T>, j: nat, f: T -> string)
    requires j < |a|
    ensures ConcatMap(a, f) == ConcatMap(a[..j], f) + f(a[j]) + ConcatMap(a[j + 1..], f)
  {
    var pre := a[..j + 1];
    assert a == pre + a[j + 1..];
    ConcatMapAppend(pre, a[j + 1..], f);
    assert pre[..j] == a[..j];
    assert ConcatMap(pre, f) == ConcatMap(a[..j], f) + f(a[j]);
  }

  /** The string `hashPath` feeds to SHA-256: every hop's entry, in order. */
  function Preimage(hops: seq<Hop>): string {
    ConcatMap(hops, HopEntry)
  }

  /** `hashPath`: write each hop's entry into a builder, then digest it. */
  method HashPath(hops: seq<Hop>, digest: string -> string) returns (hash: string)
    ensures hash == digest(Preimage(hops))
  {
    var sb := "";
    for i := 0 to |hops|
      invariant sb == Preimage(hops[..i])
    {
      assert hops[..i + 1][..i] == hops[..i];
      sb := sb + HopEntry(hops[i]);
    }
    assert hops[..|hops|] == hops;
    hash := digest(sb);
  }

  /** The pre-image of a concatenation is the concatenation of pre-images. */
  lemma PreimageAppend(a: seq<Hop>, b: seq<Hop>)
    ensures Preimage(a + b) == Preimage(a) + Preimage(b)
  {
    ConcatMapAppend(a, b, HopEntry);
  }

  /** Hop lists with the same TTLs and addresses have the same pre-image, so
      the same fingerprint: RTTs never enter it. */
  lemma {:induction false} PreimageIgnoresRtt(a: seq<Hop>, b: seq<Hop>)
    requires |a| == |b|
    requires forall i :: 0 <= i < |a| ==> a[i].ttl == b[i].ttl && a[i].ip == b[i].ip
    ensures Preimage(a) == Preimage(b)
    decreases |a|
  {
    if a != [] {
      PreimageIgnoresRtt(a[..|a| - 1], b[..|b| - 1]);
      assert HopEntry(a[|a| - 1]) == HopEntry(b[|b| - 1]);
    }
  }

  /** Two hop lists equal except for the address of one hop have different
      pre-images. */
  lemma PreimageSeparatesIp(a: seq<Hop>, j: nat, ip: string)
    requires j < |a| && ip != a[j].ip
    ensures Preimage(a[j := a[j].(ip := ip)]) != Preimage(a)
  {
    var b := a[j := a[j].(ip := ip)];
    ConcatMapAround(a, j, HopEntry);
    ConcatMapAround(b, j, HopEntry);
    assert b[..j] == a[..j] && b[j + 1..] == a[j + 1..];
    var left, right := Preimage(a[..j]), Preimage(a[j + 1..]);
    var q := NatToString(a[j].ttl) + ":";
    Surround(Preimage(a), left, HopEntry(a[j]), right, q, a[j].ip, "|");
    Surround(Preimage(b), left, HopEntry(b[j]), right, q, ip, "|");
    SeparatedByOne(left + q, a[j].ip, ip, "|" + right);
  }

  lemma Surround(x: string, left: string, e: string, right: string, q: string, m: string, u: string)
    requires x == left + e + right && e == q + m + u
    ensures x == (left + q) + m + (u + right)
  {
  }

  /** Equal surroundings keep different middles apart. */
  lemma SeparatedByOne(p: string, x: string, y: string, s: string)
    requires x != y
    ensures p + x + s != p + y + s
  {
    if |x| == |y| {
      assert (p + x + s)[|p|..|p| + |x|] == x;
      assert (p + y + s)[|p|..|p| + |y|] == y;
    }
  }

  // ------------------------------------------------------------ run

  /** `Run` after the command has returned: a failure without output carries
      only the error; otherwise the output is parsed and fingerprinted, and a
      failure adds its message. */
  function RunResult(out: string, cmdErr: Option<string>, digest: string -> string): TraceResult {
    match cmdErr
    case Some(e) =>
      if |out| == 0 then TraceResult([], "", e)
      else
        var hops := ParseOutputSpec(out);
        TraceResult(hops, digest(Preimage(hops)), e)
    case None =>
      var hops := ParseOutputSpec(out);
      TraceResult(hops, digest(Preimage(hops)), "")
  }

  /** The three outcomes of a run: error without output gives no hops and no
      hash; error with output gives exactly the clean run's hops and hash plus
      the message; success carries no error. */
  lemma RunResultCases(out: string, e: string, digest: string -> string)
    ensures RunResult("", Some(e), digest) == TraceResult([], "", e)
    ensures out != "" ==>
      && RunResult(out, Some(e), digest).hops == RunResult(out, None, digest).hops
      && RunResult(out, Some(e), digest).pathHash == RunResult(out, None, digest).pathHash
      && RunResult(out, Some(e), digest).err == e
    ensures RunResult(out, None, digest).err == ""
    ensures RunResult(out, None, digest).pathHash == digest(Preimage(RunResult(out, None, digest).hops))
  {
  }
}
