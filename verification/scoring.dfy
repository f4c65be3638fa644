/** `verify_email`: the running total over every signal, in the order the
    verifier adds them, then the clamp to [0, 100], the status bands and the
    optional per-domain override. Each signal is a step of a left fold: most
    add points, two (the hard-failure cap and the provider cap) lower the
    running total to a limit. */
module Scoring {
  import opened Wrappers
  import opened Text
  import Syntax
  import Smtp
  import H = Heuristics

  datatype Step = Add(points: int) | Cap(limit: int)

  function ApplyStep(total: int, s: Step): (r: int)
    ensures s.Add? ==> r == total + s.points
    ensures s.Cap? ==> r <= total && r <= s.limit && (r == total || r == s.limit)
  {
    match s
    case Add(p) => total + p
    case Cap(limit) => if total > limit then limit else total
  }

  /** The running total after each step in turn. */
  function Run(steps: seq<Step>, total: int): int
    decreases |steps|
  {
    if |steps| == 0 then total else Run(steps[1..], ApplyStep(total, steps[0]))
  }

  /** Running two lists one after the other is running their concatenation. */
  lemma {:induction false} RunAppend(a: seq<Step>, b: seq<Step>, total: int)
    ensures Run(a + b, total) == Run(b, Run(a, total))
    decreases |a|
  {
    if |a| > 0 {
      assert (a + b)[0] == a[0];
      assert (a + b)[1..] == a[1..] + b;
      RunAppend(a[1..], b, ApplyStep(total, a[0]));
    } else {
      assert a + b == b;
    }
  }

  /** The sum of the points of the `Add` steps. */
  function SumAdds(steps: seq<Step>): int
    decreases |steps|
  {
    if |steps| == 0 then 0 else (if steps[0].Add? then steps[0].points else 0) + SumAdds(steps[1..])
  }

  predicate NoCaps(steps: seq<Step>) {
    forall i :: 0 <= i < |steps| ==> steps[i].Add?
  }

  /** Without caps the fold is a plain sum: a cap bounds the running total at
      its own position only, and everything added after it still counts. */
  lemma {:induction false} RunWithoutCaps(steps: seq<Step>, total: int)
    requires NoCaps(steps)
    ensures Run(steps, total) == total + SumAdds(steps)
    decreases |steps|
  {
    if |steps| > 0 {
      RunWithoutCaps(steps[1..], ApplyStep(total, steps[0]));
    }
  }

  /** `s1` is `s2` with every `Add` lowered or kept and every `Cap` kept. */
  predicate Dominated(s1: seq<Step>, s2: seq<Step>) {
    && |s1| == |s2|
    && forall i :: 0 <= i < |s1| ==>
         (s1[i].Cap? && s1[i] == s2[i]) || (s1[i].Add? && s2[i].Add? && s1[i].points <= s2[i].points)
  }

  /** More points in, never fewer out: the fold is monotone in its start and
      in every added amount. */
  lemma {:induction false} RunMonotone(s1: seq<Step>, s2: seq<Step>, t1: int, t2: int)
    requires Dominated(s1, s2) && t1 <= t2
    ensures Run(s1, t1) <= Run(s2, t2)
    decreases |s1|
  {
    if |s1| > 0 {
      assert Dominated(s1[1..], s2[1..]) by {
        forall i | 0 <= i < |s1| - 1 ensures (s1[1..][i].Cap? && s1[1..][i] == s2[1..][i])
            || (s1[1..][i].Add? && s2[1..][i].Add? && s1[1..][i].points <= s2[1..][i].points) {
          assert s1[1..][i] == s1[i + 1] && s2[1..][i] == s2[i + 1];
        }
      }
      RunMonotone(s1[1..], s2[1..], ApplyStep(t1, s1[0]), ApplyStep(t2, s2[0]));
    }
  }

  lemma DominatedAppend(a1: seq<Step>, a2: seq<Step>, b1: seq<Step>, b2: seq<Step>)
    requires Dominated(a1, a2) && Dominated(b1, b2)
    ensures Dominated(a1 + b1, a2 + b2)
  {
    forall i | 0 <= i < |a1 + b1| ensures ((a1 + b1)[i].Cap? && (a1 + b1)[i] == (a2 + b2)[i])
        || ((a1 + b1)[i].Add? && (a2 + b2)[i].Add? && (a1 + b1)[i].points <= (a2 + b2)[i].points) {
      if i < |a1| {
        assert (a1 + b1)[i] == a1[i] && (a2 + b2)[i] == a2[i];
      } else {
        assert (a1 + b1)[i] == b1[i - |a1|] && (a2 + b2)[i] == b2[i - |a1|];
      }
    }
  }

  /** A step behind a gate: it is taken only when the gate is open. */
  datatype Signal = Signal(gate: bool, step: Step)

  function Always(s: Step): Signal { Signal(true, s) }

  /** The steps actually taken, in order. */
  function Gated(signals: seq<Signal>): (steps: seq<Step>)
    ensures |steps| <= |signals|
    decreases |signals|
  {
    if |signals| == 0 then []
    else (if signals[0].gate then [signals[0].step] else []) + Gated(signals[1..])
  }

  /** Same gates, same caps, and every added amount of `a` at most that of `b`. */
  predicate SignalsDominated(a: seq<Signal>, b: seq<Signal>) {
    && |a| == |b|
    && forall i :: 0 <= i < |a| ==>
         && a[i].gate == b[i].gate
         && ((a[i].step.Cap? && a[i].step == b[i].step)
             || (a[i].step.Add? && b[i].step.Add? && a[i].step.points <= b[i].step.points))
  }

  lemma {:induction false} GatedDominated(a: seq<Signal>, b: seq<Signal>)
    requires SignalsDominated(a, b)
    ensures Dominated(Gated(a), Gated(b))
    decreases |a|
  {
    if |a| > 0 {
      assert SignalsDominated(a[1..], b[1..]) by {
        forall i | 0 <= i < |a| - 1 ensures a[1..][i] == a[i + 1] && b[1..][i] == b[i + 1] {}
      }
      GatedDominated(a[1..], b[1..]);
      var ha := if a[0].gate then [a[0].step] else [];
      var hb := if b[0].gate then [b[0].step] else [];
      assert Dominated(ha, hb);
      DominatedAppend(ha, hb, Gated(a[1..]), Gated(b[1..]));
    }
  }

  // ---------------------------------------------------------------------
  // Status

  datatype Status = Valid | LikelyValid | Uncertain | LikelyInvalid | Invalid | Forced(name: string)

  /** The thresholds 90 / 70 / 50 / 20, highest first. */
  const Thresholds: seq<int> := [90, 70, 50, 20]

  function Band(score: int): (s: Status)
    ensures s == Valid <==> score >= 90
    ensures s == LikelyValid <==> 70 <= score < 90
    ensures s == Uncertain <==> 50 <= score < 70
    ensures s == LikelyInvalid <==> 20 <= score < 50
    ensures s == Invalid <==> score < 20
    ensures !s.Forced?
  {
    if score >= 90 then Valid
    else if score >= 70 then LikelyValid
    else if score >= 50 then Uncertain
    else if score >= 20 then LikelyInvalid
    else Invalid
  }

  /** The status string the report carries. */
  function StatusName(s: Status): string {
    match s
    case Valid => "valid"
    case LikelyValid => "likely_valid"
    case Uncertain => "uncertain"
    case LikelyInvalid => "likely_invalid"
    case Invalid => "invalid"
    case Forced(name) => name
  }

  /** The status a forced string stands for: one of the five bands when it
      names one, otherwise a status of its own. */
  function StatusOfName(name: string): (s: Status)
    ensures StatusName(s) == name
    ensures s.Forced? <==> name !in {"valid", "likely_valid", "uncertain", "likely_invalid", "invalid"}
  {
    if name == "valid" then Valid
    else if name == "likely_valid" then LikelyValid
    else if name == "uncertain" then Uncertain
    else if name == "likely_invalid" then LikelyInvalid
    else if name == "invalid" then Invalid
    else Forced(name)
  }

  /** Forcing the name of a band gives that band back. */
  lemma ForcedBandNameIsBand(score: int)
    ensures StatusOfName(StatusName(Band(score))) == Band(score)
  {
  }

  function BandReason(s: Status): string {
    match s
    case Valid => "Very likely valid"
    case LikelyValid => "Probably valid but unconfirmed"
    case Uncertain => "Uncertain (common when SMTP blocks verification)"
    case LikelyInvalid => "Likely invalid"
    case Invalid => "Definitely invalid"
    case Forced(_) => ""
  }

  /** Position of a band from the bottom: how many thresholds the score reaches. */
  function Rank(s: Status): nat {
    match s
    case Invalid => 0
    case LikelyInvalid => 1
    case Uncertain => 2
    case LikelyValid => 3
    case Valid => 4
    case Forced(_) => 0
  }

  function ThresholdsReached(score: int, ts: seq<int>): (n: nat)
    ensures n <= |ts|
    decreases |ts|
  {
    if |ts| == 0 then 0 else (if score >= ts[0] then 1 else 0) + ThresholdsReached(score, ts[1..])
  }

  /** A band's rank is the number of thresholds its score reaches. */
  lemma BandRankCounts(score: int)
    ensures Rank(Band(score)) == ThresholdsReached(score, Thresholds)
  {
    var t := Thresholds;
    assert t[1..] == [70, 50, 20] && t[1..][1..] == [50, 20] && t[1..][1..][1..] == [20];
    assert ThresholdsReached(score, [20]) == (if score >= 20 then 1 else 0);
  }

  /** A higher score never gets a lower band. */
  lemma BandMonotone(s1: int, s2: int)
    requires s1 <= s2
    ensures Rank(Band(s1)) <= Rank(Band(s2))
  {
  }

  // ---------------------------------------------------------------------
  // Report and overrides

  datatype Report = Report(status: Status, score: int, confidence: real, reason: string, risky: bool)

  /** An entry of the per-domain override table: a numeric `min_score` and a
      string `force_status`, each optional. */
  datatype Override = Override(minScore: Option<real>, forceStatus: Option<string>)

  /** `int(x)` of a Python number: truncation toward zero. */
  function Truncate(x: real): (n: int)
    ensures x >= 0.0 ==> n as real <= x < n as real + 1.0
    ensures x < 0.0 ==> n as real - 1.0 < x <= n as real
  {
    if x >= 0.0 then x.Floor else -((-x).Floor)
  }

  /** An override raises the score to its minimum and recomputes the
      confidence, but leaves the status alone unless it forces one. */
  function ApplyOverride(r: Report, o: Option<Override>): (out: Report)
    ensures out.score >= r.score
    ensures o.None? ==> out == r
    ensures o.Some? && o.value.minScore.Some? ==>
      out.score == (if r.score >= Truncate(o.value.minScore.value) then r.score else Truncate(o.value.minScore.value))
      && out.confidence == out.score as real / 100.0
    ensures o.Some? && o.value.minScore.None? ==> out.score == r.score && out.confidence == r.confidence
    ensures o.Some? && o.value.forceStatus.Some? ==>
      StatusName(out.status) == o.value.forceStatus.value && out.status == StatusOfName(o.value.forceStatus.value)
    ensures !(o.Some? && o.value.forceStatus.Some?) ==> out.status == r.status
    ensures out.reason == r.reason && out.risky == r.risky
  {
    match o
    case None => r
    case Some(ov) =>
      var raised := match ov.minScore
        case None => r
        case Some(m) =>
          var s := if r.score >= Truncate(m) then r.score else Truncate(m);
          r.(score := s, confidence := s as real / 100.0);
      match ov.forceStatus
      case None => raised
      case Some(name) => raised.(status := StatusOfName(name))
  }

  /** Clamp, band, then the override of the domain. */
  function Finish(total: int, risky: bool, o: Option<Override>): (r: Report)
    ensures o.None? ==> 0 <= r.score <= 100 && r.confidence == r.score as real / 100.0 && r.status == Band(r.score)
    ensures o.None? ==> r.score == (if total < 0 then 0 else if total > 100 then 100 else total)
    ensures r.score >= (if total < 0 then 0 else if total > 100 then 100 else total)
    ensures r.risky == risky
  {
    var score := H.Clamp(total, 0, 100);
    var status := Band(score);
    ApplyOverride(Report(status, score, score as real / 100.0, BandReason(status), risky), o)
  }

  // ---------------------------------------------------------------------
  // Inputs

  /** What the DNS health check found: whether the domain resolved, its MX
      hosts (or the domain itself as A fallback), and its DNS points. */
  datatype DnsHealth = DnsHealth(domainExists: bool, mxHosts: seq<string>, points: int)

  /** The points of the probes whose logic is not modelled: security
      reputation, web presence, provider fingerprint, TLS certificate, mail
      ports, DNSSEC, PTR record, IP reputation, MX consistency, TLS policy,
      MAIL FROM health, load balancer, VRFY, greylist depth and DNS blocklists. */
  datatype Others = Others(
    security: int, web: int, fingerprint: int, tlsCert: int, mailPorts: int,
    dnssec: int, ptr: int, ipReputation: int, mxConsistency: int, tlsPolicy: int,
    mailFrom: int, loadBalancer: int, vrfy: int, greylistDepth: int, blacklist: int)

  /** Everything the network told one verification. */
  datatype Probes = Probes(
    dns: DnsHealth,
    ageDays: Option<int>,
    hostProbes: seq<Smtp.HostProbe>,
    rcptSession: Smtp.RcptSession,
    others: Others,
    retryAttempts: seq<Option<int>>,
    roleReplies: seq<Option<int>>,
    quit: H.QuitOutcome,
    tcpAttempts: seq<bool>,
    catchAllToken: string,
    catchAllProbes: seq<Smtp.HostProbe>,
    catchAllSession: Smtp.RcptSession)

  /** The shape the verifier's loops give these reports: one probe per MX
      host tried (at most two), four role replies, three TCP attempts and a
      15-character `[a-z0-9]` catch-all token. */
  predicate WellFormed(p: Probes) {
    && |p.hostProbes| >= 2 && |p.catchAllProbes| >= 2
    && |p.roleReplies| == 4 && |p.tcpAttempts| == 3
    && |p.catchAllToken| == 15
    && forall i :: 0 <= i < |p.catchAllToken| ==> Smtp.IsTokenChar(p.catchAllToken[i])
  }

  /** The provider cap as a signal: a cap at the first matching provider's
      maximum, taken when the RCPT probe was not accepted. */
  function ProviderSignal(domain: string, accepted: bool): Signal {
    match H.FirstProvider(domain)
    case None => Signal(false, Cap(0))
    case Some(i) => Signal(!accepted, Cap(H.ProviderRules[i].maxScoreWithoutRcpt))
  }

  /** The provider step does to the running total what `_apply_provider_rules` reports. */
  lemma ProviderStepAgrees(domain: string, accepted: bool, rejected: bool, total: int)
    ensures Run(Gated([ProviderSignal(domain, accepted)]), total)
         == H.ApplyProviderRules(domain, accepted, rejected, total).adjustedScore
  {
    var sig := ProviderSignal(domain, accepted);
    assert Gated([sig]) == (if sig.gate then [sig.step] else []) + Gated([sig][1..]);
    assert Gated([sig][1..]) == [];
    var steps := Gated([sig]);
    if sig.gate {
      assert Run(steps, total) == Run(steps[1..], ApplyStep(total, steps[0]));
    }
  }

  /** The modelled points and gates of one verification, before they are
      laid out as steps. */
  datatype Measured = Measured(
    dnsPoints: int, agePoints: int, connPoints: int, greetingPoints: int, rcptPoints: int,
    hardFailure: bool, timingPoints: int, deep: bool, errorPatternPoints: int, provider: Signal,
    softFailure: bool, retryPoints: int, mxUsed: bool, hasMx: bool, behaviorPoints: int,
    popularityPoints: int, blocklistPoints: int, redundancyPoints: int, strictnessPoints: int,
    latencyPoints: int, manyMx: bool, rolePoints: int, brandPoints: int, hasBanner: bool,
    bannerPoints: int, quitPoints: int, tcpPoints: int, catchAll: bool)

  /** What the modelled helpers make of one verification's probes.
      `blocklist` and `strictness` are the points of the two steps that read
      the RCPT error text. */
  function Measure(domain: string, fastMode: bool, p: Probes, conn: Smtp.ConnResult,
                   rcpt: Smtp.RcptResult, blocklist: int, strictness: int, catchAll: bool): Measured
    requires |p.roleReplies| == 4 && |p.tcpAttempts| == 3
  {
    var mx := p.dns.mxHosts;
    var hasMx := |mx| > 0;
    var banner := if conn.greeting.Some? then conn.greeting.value.message else "";
    Measured(
      dnsPoints := p.dns.points,
      agePoints := H.AgePoints(p.ageDays),
      connPoints := conn.points,
      greetingPoints := if conn.greeting.Some? then conn.greeting.value.points else 0,
      rcptPoints := rcpt.points,
      hardFailure := rcpt.hardFailure,
      timingPoints := rcpt.timingPoints,
      deep := !fastMode,
      errorPatternPoints := H.ClassifyErrorPattern(rcpt.error, conn.error).points,
      provider := ProviderSignal(domain, rcpt.accepted),
      softFailure := rcpt.softFailure,
      retryPoints := H.RetryPoints(p.retryAttempts),
      mxUsed := Smtp.HostUsed(conn),
      hasMx := hasMx,
      behaviorPoints := H.ServerBehaviorPoints(GreetingValid(conn), conn.tlsOk, rcpt.responseTime),
      popularityPoints := if hasMx then H.PopularityPoints(mx[0]) else 0,
      blocklistPoints := blocklist,
      redundancyPoints := H.MxRedundancyPoints(|mx|),
      strictnessPoints := strictness,
      latencyPoints := H.LatencyPoints(rcpt.responseTime),
      manyMx := |mx| > 1,
      rolePoints := H.RolePoints(hasMx, p.roleReplies),
      brandPoints := if hasMx then H.MxBrand(mx[0]).0 else 0,
      hasBanner := banner != "",
      bannerPoints := H.BannerPoints(banner),
      quitPoints := H.QuitPoints(p.quit),
      tcpPoints := H.TcpStabilityPoints(p.tcpAttempts),
      catchAll := catchAll)
  }

  /** The signals in the order `verify_email` adds them, each behind the
      gate it has there. */
  function Layout(m: Measured, o: Others): seq<Signal> {
    LayoutHead(m, o) + LayoutProbes(m, o) + LayoutInfra(m, o) + LayoutTail(m, o)
  }

  /** Signals from syntax to web presence, with the hard-failure cap. */
  function LayoutHead(m: Measured, o: Others): seq<Signal> {
    [ Always(Add(10)),
      Always(Add(m.dnsPoints)),
      Always(Add(m.agePoints)),
      Always(Add(m.connPoints)),
      Always(Add(m.greetingPoints)),
      Always(Add(m.rcptPoints)),
      Signal(m.hardFailure, Cap(10)),
      Always(Add(m.timingPoints)),
      Always(Add(o.security)),
      Always(Add(o.web))
    ]
  }

  /** Signals from provider fingerprint to server behaviour, with the provider cap. */
  function LayoutProbes(m: Measured, o: Others): seq<Signal> {
    [ Signal(m.deep, Add(o.fingerprint)),
      Always(Add(m.errorPatternPoints)),
      m.provider,
      Signal(m.deep && m.softFailure, Add(m.retryPoints)),
      Signal(m.mxUsed, Add(o.tlsCert)),
      Signal(m.deep && m.hasMx, Add(o.mailPorts)),
      Always(Add(o.dnssec)),
      Signal(m.hasMx, Add(o.ptr)),
      Signal(m.hasMx, Add(o.ipReputation)),
      Signal(m.mxUsed, Add(m.behaviorPoints))
    ]
  }

  /** Signals from MX popularity to role accounts. */
  function LayoutInfra(m: Measured, o: Others): seq<Signal> {
    [ Signal(m.hasMx, Add(m.popularityPoints)),
      Always(Add(m.blocklistPoints)),
      Signal(m.hasMx, Add(o.mxConsistency)),
      Signal(m.mxUsed && m.deep, Add(o.tlsPolicy)),
      Always(Add(m.redundancyPoints)),
      Signal(m.mxUsed && m.deep, Add(m.strictnessPoints)),
      Signal(m.mxUsed && m.deep, Add(o.mailFrom)),
      Signal(m.mxUsed && m.deep, Add(m.latencyPoints)),
      Signal(m.manyMx && m.deep, Add(o.loadBalancer)),
      Signal(m.mxUsed && m.deep, Add(o.vrfy))
    ]
  }

  /** Signals from MX brand to the catch-all bonus. */
  function LayoutTail(m: Measured, o: Others): seq<Signal> {
    [ Signal(m.deep, Add(m.rolePoints)),
      Signal(m.hasMx, Add(m.brandPoints)),
      Signal(m.softFailure && m.deep, Add(o.greylistDepth)),
      Signal(m.hasBanner, Add(m.bannerPoints)),
      Always(Add(o.blacklist)),
      Signal(m.mxUsed && m.deep, Add(m.quitPoints)),
      Signal(m.mxUsed && m.deep, Add(m.tcpPoints)),
      Signal(m.catchAll, Add(10))
    ]
  }

  const InvalidSyntaxReport: Report := Report(Invalid, 0, 0.0, "Invalid email syntax", false)

  /** The report when the domain did not resolve: the syntax and DNS points
      so far, neither clamped nor overridden. */
  function NoDomainReport(dnsPoints: int): Report {
    Report(Invalid, 10 + dnsPoints, (10 + dnsPoints) as real / 100.0, "Domain does not exist", false)
  }

  /** The probes of a syntactically valid address at a resolving domain. */
  datatype Session = Session(domain: string, conn: Smtp.ConnResult, rcpt: Smtp.RcptResult, catchAll: bool)

  function Probe(email: string, fastMode: bool, p: Probes): (s: Session)
    requires Syntax.MatchesPattern(email) && WellFormed(p)
    ensures s.domain == Syntax.SplitAddress(email).1
    ensures s.conn == Smtp.CheckConnection(s.domain, p.dns.mxHosts, fastMode, p.hostProbes)
    ensures s.rcpt == Smtp.CheckRcpt(s.conn, p.dns.mxHosts, p.rcptSession)
    ensures s.catchAll <==> (!fastMode
      && Smtp.DetectCatchAll(s.domain, p.dns.mxHosts, p.catchAllToken, p.catchAllProbes, p.catchAllSession).isCatchall)
  {
    var domain := Syntax.SplitAddress(email).1;
    var mx := p.dns.mxHosts;
    var conn := Smtp.CheckConnection(domain, mx, fastMode, p.hostProbes);
    var rcpt := Smtp.CheckRcpt(conn, mx, p.rcptSession);
    var catchAll := !fastMode
      && Smtp.DetectCatchAll(domain, mx, p.catchAllToken, p.catchAllProbes, p.catchAllSession).isCatchall;
    Session(domain, conn, rcpt, catchAll)
  }

  function GreetingValid(conn: Smtp.ConnResult): bool {
    conn.greeting.Some? && conn.greeting.value.valid
  }

  /** The scoring tail of a verification that reached the SMTP probes. */
  function Scored(fastMode: bool, p: Probes, s: Session, blocklist: int, strictness: int,
                  overrides: map<string, Override>): (r: Report)
    requires WellFormed(p)
    ensures s.domain !in overrides ==>
      0 <= r.score <= 100 && r.confidence == r.score as real / 100.0 && r.status == Band(r.score)
      && r.reason == BandReason(r.status)
    ensures r.risky == s.catchAll
  {
    var m := Measure(s.domain, fastMode, p, s.conn, s.rcpt, blocklist, strictness, s.catchAll);
    var steps := Gated(Layout(m, p.others));
    var o := if s.domain in overrides then Some(overrides[s.domain]) else None;
    Finish(Run(steps, 0), s.catchAll, o)
  }

  /** `verify_email` with the two error-text reads corrected to treat a
      missing error as "". */
  function VerifyEmailFixed(email: string, fastMode: bool, p: Probes, overrides: map<string, Override>): (r: Report)
    requires WellFormed(p)
    ensures !Syntax.MatchesPattern(email) ==> r == InvalidSyntaxReport
    ensures Syntax.MatchesPattern(email) && !p.dns.domainExists ==> r == NoDomainReport(p.dns.points)
    ensures Syntax.MatchesPattern(email) && p.dns.domainExists && Syntax.SplitAddress(email).1 !in overrides ==>
      0 <= r.score <= 100 && r.confidence == r.score as real / 100.0 && r.status == Band(r.score)
      && r.reason == BandReason(r.status)
  {
    if !Syntax.CheckSyntax(email).valid then InvalidSyntaxReport
    else if !p.dns.domainExists then NoDomainReport(p.dns.points)
    else
      var s := Probe(email, fastMode, p);
      Scored(fastMode, p, s, H.BlocklistPointsFixed(s.rcpt, s.conn.error),
             H.StrictnessPointsFixed(GreetingValid(s.conn), s.rcpt), overrides)
  }

  /** The verification raises exactly when the blocklist step finds a
      rejection without error text, or (outside fast mode, with an MX host
      used) the strictness step finds no error text. */
  predicate Crashes(fastMode: bool, s: Session) {
    || (s.rcpt.rejected && s.rcpt.error.None?)
    || (Smtp.HostUsed(s.conn) && !fastMode && s.rcpt.error.None?)
  }

  /** The scoring tail as written, on one probe session: the blocklist and
      strictness steps may raise. */
  function ScoreSession(fastMode: bool, p: Probes, s: Session, overrides: map<string, Override>): (r: Result<Report, string>)
    requires WellFormed(p)
    ensures r.Failure? <==> Crashes(fastMode, s)
    ensures r.Success? ==> r.value == Scored(fastMode, p, s, H.BlocklistPointsFixed(s.rcpt, s.conn.error),
                                             H.StrictnessPointsFixed(GreetingValid(s.conn), s.rcpt), overrides)
  {
    var blocklist :- H.BlocklistPoints(s.rcpt, s.conn.error);
    // the strictness step only runs (and can only raise) with an MX host used, outside fast mode
    var strictness :-
      if Smtp.HostUsed(s.conn) && !fastMode then H.StrictnessPoints(GreetingValid(s.conn), s.rcpt)
      else Success(H.StrictnessPointsFixed(GreetingValid(s.conn), s.rcpt));
    Success(Scored(fastMode, p, s, blocklist, strictness, overrides))
  }

  /** `verify_email` as written: the same run, but the two error-text reads
      raise on a missing error. */
  function VerifyEmail(email: string, fastMode: bool, p: Probes, overrides: map<string, Override>): (r: Result<Report, string>)
    requires WellFormed(p)
    ensures r.Failure? <==>
      Syntax.MatchesPattern(email) && p.dns.domainExists && Crashes(fastMode, Probe(email, fastMode, p))
    ensures r.Success? ==> r.value == VerifyEmailFixed(email, fastMode, p, overrides)
  {
    if !Syntax.CheckSyntax(email).valid then Success(InvalidSyntaxReport)
    else if !p.dns.domainExists then Success(NoDomainReport(p.dns.points))
    else ScoreSession(fastMode, p, Probe(email, fastMode, p), overrides)
  }

  /** Every unmodelled probe reports at least as many points in `o2` as in `o1`. */
  predicate OthersLe(o1: Others, o2: Others) {
    && o1.security <= o2.security && o1.web <= o2.web && o1.fingerprint <= o2.fingerprint
    && o1.tlsCert <= o2.tlsCert && o1.mailPorts <= o2.mailPorts && o1.dnssec <= o2.dnssec
    && o1.ptr <= o2.ptr && o1.ipReputation <= o2.ipReputation && o1.mxConsistency <= o2.mxConsistency
    && o1.tlsPolicy <= o2.tlsPolicy && o1.mailFrom <= o2.mailFrom && o1.loadBalancer <= o2.loadBalancer
    && o1.vrfy <= o2.vrfy && o1.greylistDepth <= o2.greylistDepth && o1.blacklist <= o2.blacklist
  }

  lemma SignalsDominatedAppend(a1: seq<Signal>, a2: seq<Signal>, b1: seq<Signal>, b2: seq<Signal>)
    requires SignalsDominated(a1, a2) && SignalsDominated(b1, b2)
    ensures SignalsDominated(a1 + b1, a2 + b2)
  {
    forall i | 0 <= i < |a1 + b1|
      ensures (a1 + b1)[i] == (if i < |a1| then a1[i] else b1[i - |a1|])
      ensures (a2 + b2)[i] == (if i < |a1| then a2[i] else b2[i - |a1|])
    {
    }
  }

  lemma LayoutMonotone(m: Measured, o1: Others, o2: Others)
    requires OthersLe(o1, o2)
    ensures SignalsDominated(Layout(m, o1), Layout(m, o2))
  {
    assert SignalsDominated(LayoutHead(m, o1), LayoutHead(m, o2));
    assert SignalsDominated(LayoutProbes(m, o1), LayoutProbes(m, o2));
    assert SignalsDominated(LayoutInfra(m, o1), LayoutInfra(m, o2));
    assert SignalsDominated(LayoutTail(m, o1), LayoutTail(m, o2));
    SignalsDominatedAppend(LayoutHead(m, o1), LayoutHead(m, o2), LayoutProbes(m, o1), LayoutProbes(m, o2));
    SignalsDominatedAppend(LayoutHead(m, o1) + LayoutProbes(m, o1), LayoutHead(m, o2) + LayoutProbes(m, o2),
                           LayoutInfra(m, o1), LayoutInfra(m, o2));
    SignalsDominatedAppend(LayoutHead(m, o1) + LayoutProbes(m, o1) + LayoutInfra(m, o1),
                           LayoutHead(m, o2) + LayoutProbes(m, o2) + LayoutInfra(m, o2),
                           LayoutTail(m, o1), LayoutTail(m, o2));
  }

  /** `Measure` does not read the unmodelled probes. */
  lemma MeasureIgnoresOthers(domain: string, fastMode: bool, p: Probes, o2: Others, conn: Smtp.ConnResult,
                             rcpt: Smtp.RcptResult, bl: int, st: int, catchAll: bool)
    requires |p.roleReplies| == 4 && |p.tcpAttempts| == 3
    ensures Measure(domain, fastMode, p.(others := o2), conn, rcpt, bl, st, catchAll)
         == Measure(domain, fastMode, p, conn, rcpt, bl, st, catchAll)
  {
  }

  /** The scoring tail is monotone in the unmodelled probes' points. */
  lemma ScoredMonotone(fastMode: bool, p: Probes, o2: Others, s: Session, bl: int, st: int,
                       overrides: map<string, Override>)
    requires WellFormed(p) && OthersLe(p.others, o2) && s.domain !in overrides
    ensures Scored(fastMode, p, s, bl, st, overrides).score <= Scored(fastMode, p.(others := o2), s, bl, st, overrides).score
  {
    var p2 := p.(others := o2);
    var m := Measure(s.domain, fastMode, p, s.conn, s.rcpt, bl, st, s.catchAll);
    MeasureIgnoresOthers(s.domain, fastMode, p, o2, s.conn, s.rcpt, bl, st, s.catchAll);
    LayoutMonotone(m, p.others, o2);
    GatedDominated(Layout(m, p.others), Layout(m, o2));
    RunMonotone(Gated(Layout(m, p.others)), Gated(Layout(m, o2)), 0, 0);
  }

  /** Better news from any unmodelled probe never lowers the score of an
      address (for a domain without override), nor therefore its status. */
  lemma ScoreMonotone(email: string, fastMode: bool, p: Probes, o2: Others, overrides: map<string, Override>)
    requires WellFormed(p) && OthersLe(p.others, o2)
    requires Syntax.MatchesPattern(email) && p.dns.domainExists
    requires Syntax.SplitAddress(email).1 !in overrides
    ensures VerifyEmailFixed(email, fastMode, p, overrides).score
         <= VerifyEmailFixed(email, fastMode, p.(others := o2), overrides).score
    ensures Rank(VerifyEmailFixed(email, fastMode, p, overrides).status)
         <= Rank(VerifyEmailFixed(email, fastMode, p.(others := o2), overrides).status)
  {
    var p2 := p.(others := o2);
    var s := Probe(email, fastMode, p);
    assert Probe(email, fastMode, p2) == s;
    var bl := H.BlocklistPointsFixed(s.rcpt, s.conn.error);
    var st := H.StrictnessPointsFixed(GreetingValid(s.conn), s.rcpt);
    ScoredMonotone(fastMode, p, o2, s, bl, st, overrides);
    var r1 := VerifyEmailFixed(email, fastMode, p, overrides);
    var r2 := VerifyEmailFixed(email, fastMode, p2, overrides);
    assert r1 == Scored(fastMode, p, s, bl, st, overrides);
    assert r2 == Scored(fastMode, p2, s, bl, st, overrides);
    BandMonotone(r1.score, r2.score);
  }
}
