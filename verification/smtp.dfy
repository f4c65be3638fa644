/** The SMTP side of a verification: the port-25 connection test
    (`_check_smtp_connection`), the RCPT TO probe (`_check_smtp_rcpt`) and the
    catch-all test built from both (`_detect_catch_all`). Sockets and SMTP
    sessions are not modelled; what each one reported is an input record
    (`HostProbe`, `RcptSession`), and the functions here are the decisions
    the verifier takes over those reports. Reply codes are SMTP reply codes
    (section 4.2.3 of RFC 5321); "5.1.1" in a reply text is an enhanced
    mail system status code (section 3.2 of RFC 3463). */
module Smtp {
  import opened Wrappers
  import opened Text

  /** Domains whose servers are known to refuse verification probes. */
  const BlockedDomains: seq<string> := [
    "outlook.com", "hotmail.com", "live.com", "msn.com",
    "gmail.com", "googlemail.com", "yahoo.com", "yahoo.co.uk",
    "aol.com", "icloud.com", "me.com", "mac.com",
    "microsoft.com", "office365.com"
  ]

  /** MX host fragments of transactional mail services. */
  const TransactionalPatterns: seq<string> := [
    "inbound-smtp", "amazonaws.com", "sendgrid.net",
    "mailgun.org", "mailgun.com", "sparkpostmail.com",
    "postmarkapp.com", "mandrillapp.com"
  ]

  /** The provider test used for blocked domains and provider rules:
      `name in d or d.endswith('.' + name)` on the lowered domain. */
  predicate MatchesProvider(domainLower: string, name: string) {
    Contains(domainLower, name) || EndsWith(domainLower, "." + name)
  }

  /** Some blocked provider name occurs in the domain. */
  predicate BlockedProvider(domain: string) {
    exists i :: 0 <= i < |BlockedDomains| && MatchesProvider(Lower(domain), BlockedDomains[i])
  }

  /** Some transactional pattern occurs in one of the first two MX hosts. */
  predicate TransactionalHost(mxHosts: seq<string>) {
    exists i, p :: 0 <= i < |Take(mxHosts, 2)| && 0 <= p < |TransactionalPatterns|
      && Contains(Lower(mxHosts[i]), TransactionalPatterns[p])
  }

  predicate IsTransactional(host: string) {
    FirstIndex(TransactionalPatterns, (p: string) => Contains(Lower(host), p)).Some?
  }

  /** The two scans `_check_smtp_connection` runs before opening any socket. */
  function SkipScan(domain: string, mxHosts: seq<string>): (skip: bool)
    ensures skip <==> BlockedProvider(domain) || TransactionalHost(mxHosts)
  {
    var blocked := FirstIndex(BlockedDomains, BlockedTest(domain));
    var transactional := FirstIndex(Take(mxHosts, 2), IsTransactional);
    BlockedScan(domain);
    TransactionalScan(mxHosts);
    blocked.Some? || transactional.Some?
  }

  /** The per-name test of the blocked-domain loop for one domain. */
  function BlockedTest(domain: string): string -> bool {
    (b: string) => MatchesProvider(Lower(domain), b)
  }

  /** The blocked-domain scan finds a name exactly when one matches. */
  lemma BlockedScan(domain: string)
    ensures FirstIndex(BlockedDomains, BlockedTest(domain)).Some? <==> BlockedProvider(domain)
  {
    var f := FirstIndex(BlockedDomains, BlockedTest(domain));
    if f.Some? {
      assert MatchesProvider(Lower(domain), BlockedDomains[f.value]);
    }
    if BlockedProvider(domain) {
      var i :| 0 <= i < |BlockedDomains| && MatchesProvider(Lower(domain), BlockedDomains[i]);
      assert BlockedTest(domain)(BlockedDomains[i]);
    }
  }

  /** The nested host/pattern scan finds a transactional host exactly when one exists. */
  lemma TransactionalScan(mxHosts: seq<string>)
    ensures FirstIndex(Take(mxHosts, 2), IsTransactional).Some? <==> TransactionalHost(mxHosts)
  {
    var hosts := Take(mxHosts, 2);
    var transactional := FirstIndex(hosts, IsTransactional);
    if transactional.Some? {
      var i := transactional.value;
      PatternScan(hosts[i]);
      var p :| 0 <= p < |TransactionalPatterns| && Contains(Lower(hosts[i]), TransactionalPatterns[p]);
      assert hosts[i] == mxHosts[i];
    }
    if TransactionalHost(mxHosts) {
      var i, p :| 0 <= i < |hosts| && 0 <= p < |TransactionalPatterns|
        && Contains(Lower(mxHosts[i]), TransactionalPatterns[p]);
      assert hosts[i] == mxHosts[i];
      PatternScan(hosts[i]);
    }
  }

  /** The inner pattern scan on one host finds a pattern exactly when one occurs. */
  lemma PatternScan(host: string)
    ensures IsTransactional(host) <==>
      exists p :: 0 <= p < |TransactionalPatterns| && Contains(Lower(host), TransactionalPatterns[p])
  {
    var f := FirstIndex(TransactionalPatterns, (p: string) => Contains(Lower(host), p));
    if f.Some? {
      assert Contains(Lower(host), TransactionalPatterns[f.value]);
    }
  }

  /** The blocked-domain test is a substring test, so a domain that merely
      ends in a blocked name is skipped: `acme.com` contains `me.com`. */
  lemma SubstringSkipsAcme()
    ensures BlockedProvider("acme.com")
  {
    assert "me.com" <= "acme.com"[2..];
    assert Lower("acme.com") == "acme.com";
    assert BlockedDomains[10] == "me.com";
    assert MatchesProvider(Lower("acme.com"), BlockedDomains[10]);
  }

  /** The 220 greeting read on a raw socket before the SMTP session. */
  datatype Greeting = Greeting(valid: bool, points: int, code: Option<int>, message: string)

  /** What one MX host did during the connection test. `banner` is the
      decoded text read from the raw socket (`None` when that read raised);
      `connected` says whether `smtplib` then connected; `tlsUpgraded`
      whether STARTTLS was advertised and the upgrade and second EHLO
      succeeded; `closedCleanly` whether QUIT returned without raising. */
  datatype HostProbe = HostProbe(
    portOpen: bool,
    banner: Option<string>,
    connected: bool,
    tlsUpgraded: bool,
    closedCleanly: bool)

  datatype ConnResult = ConnResult(
    port25Open: bool,
    tlsOk: bool,
    greeting: Option<Greeting>,
    points: int,
    mxUsed: Option<string>,
    skipped: bool,
    error: Option<string>)

  const NoConnection: ConnResult := ConnResult(false, false, None, 0, None, false, None)

  /** A greeting is valid when the stripped reply starts with `220`
      (+10); any other reply, or a failed read, scores -10. */
  function ReadGreeting(banner: Option<string>): (g: Greeting)
    ensures g.valid <==> banner.Some? && StartsWith(Strip(banner.value), "220")
    ensures g.valid ==> g.points == 10 && g.code == Some(220) && g.message == Strip(banner.value)
    ensures !g.valid ==> g.points == -10 && g.code.None? && g.message == ""
  {
    match banner
    case None => Greeting(false, -10, None, "")
    case Some(raw) =>
      var text := Strip(raw);
      if StartsWith(text, "220") then Greeting(true, 10, Some(220), text)
      else Greeting(false, -10, None, "")
  }

  /** A host that ends the loop: port open, session connected, QUIT returned. */
  predicate Answers(pr: HostProbe) {
    pr.portOpen && pr.connected && pr.closedCleanly
  }

  /** STARTTLS succeeded on an open, connected host outside fast mode. */
  predicate Upgraded(pr: HostProbe, fastMode: bool) {
    pr.portOpen && pr.connected && pr.tlsUpgraded && !fastMode
  }

  /** What one visited host contributes: 10 for an open port, 5 more for a
      STARTTLS upgrade. */
  function HostPoints(pr: HostProbe, fastMode: bool): int {
    (if pr.portOpen then 10 else 0) + (if Upgraded(pr, fastMode) then 5 else 0)
  }

  /** The result after visiting one host. A host whose port 25 is open earns
      10 points and becomes `mx_used` with its greeting, even if the SMTP
      session that follows fails. */
  function Step(host: string, pr: HostProbe, fastMode: bool, acc: ConnResult): (n: ConnResult)
    ensures n.points == acc.points + HostPoints(pr, fastMode)
    ensures n.mxUsed == (if pr.portOpen then Some(host) else acc.mxUsed)
    ensures n.greeting == (if pr.portOpen then Some(ReadGreeting(pr.banner)) else acc.greeting)
    ensures n.port25Open == (acc.port25Open || pr.portOpen)
    ensures n.tlsOk == (acc.tlsOk || Upgraded(pr, fastMode))
    ensures n.skipped == acc.skipped && n.error == acc.error
  {
    if !pr.portOpen then acc
    else
      var reached := acc.(port25Open := true, points := acc.points + 10, mxUsed := Some(host),
                         greeting := Some(ReadGreeting(pr.banner)));
      if Upgraded(pr, fastMode) then reached.(tlsOk := true, points := reached.points + 5)
      else reached
  }

  /** The loop over (at most two) MX hosts: each host is visited in turn,
      and a clean QUIT ends the loop. */
  function ProbeHosts(hosts: seq<string>, probes: seq<HostProbe>, fastMode: bool, acc: ConnResult): (r: ConnResult)
    requires |probes| >= |hosts|
    ensures r.port25Open <==> acc.port25Open || exists i :: 0 <= i < |hosts| && probes[i].portOpen
    ensures r.greeting.Some? <==> acc.greeting.Some? || exists i :: 0 <= i < |hosts| && probes[i].portOpen
    ensures r.mxUsed.Some? <==> acc.mxUsed.Some? || exists i :: 0 <= i < |hosts| && probes[i].portOpen
    ensures r.mxUsed.Some? && r.mxUsed != acc.mxUsed ==> r.mxUsed.value in hosts
    ensures acc.points <= r.points <= acc.points + 15 * |hosts|
    ensures r.tlsOk ==> acc.tlsOk || !fastMode
    ensures r.skipped == acc.skipped && r.error == acc.error
    decreases |hosts|
  {
    if |hosts| == 0 then acc
    else
      var next := Step(hosts[0], probes[0], fastMode, acc);
      if Answers(probes[0]) then next
      else ProbeHosts(hosts[1..], probes[1..], fastMode, next)
  }

  /** How many of the first `n` hosts the loop visits: all of them, or up to
      and including the first that answers. */
  function Visited(probes: seq<HostProbe>, n: nat): (k: nat)
    requires n <= |probes|
    ensures k <= n && (n > 0 ==> k > 0)
    ensures forall j :: 0 <= j < k - 1 ==> !Answers(probes[j])
    ensures k < n ==> Answers(probes[k - 1])
    decreases n
  {
    if n == 0 then 0
    else if Answers(probes[0]) then 1
    else 1 + Visited(probes[1..], n - 1)
  }

  function SumHostPoints(probes: seq<HostProbe>, k: nat, fastMode: bool): (s: int)
    requires k <= |probes|
    ensures 0 <= s <= 15 * k
    ensures (exists j :: 0 <= j < k && probes[j].portOpen) ==> s >= 10
    decreases k
  {
    if k == 0 then 0
    else HostPoints(probes[0], fastMode) + SumHostPoints(probes[1..], k - 1, fastMode)
  }

  /** Host `j` is the last port-open host among the first `k`. */
  predicate LastOpen(probes: seq<HostProbe>, k: nat, j: int)
    requires k <= |probes|
  {
    0 <= j < k && probes[j].portOpen && forall l :: j < l < k ==> !probes[l].portOpen
  }

  lemma {:induction false} ProbeHostsPoints(hosts: seq<string>, probes: seq<HostProbe>, fastMode: bool, acc: ConnResult)
    requires |probes| >= |hosts|
    ensures ProbeHosts(hosts, probes, fastMode, acc).points
            == acc.points + SumHostPoints(probes, Visited(probes, |hosts|), fastMode)
    decreases |hosts|
  {
    if |hosts| > 0 && !Answers(probes[0]) {
      ProbeHostsPoints(hosts[1..], probes[1..], fastMode, Step(hosts[0], probes[0], fastMode, acc));
    }
  }

  lemma {:induction false} ProbeHostsTls(hosts: seq<string>, probes: seq<HostProbe>, fastMode: bool, acc: ConnResult)
    requires |probes| >= |hosts|
    ensures ProbeHosts(hosts, probes, fastMode, acc).tlsOk <==>
      acc.tlsOk || exists j :: 0 <= j < Visited(probes, |hosts|) && Upgraded(probes[j], fastMode)
    decreases |hosts|
  {
    if |hosts| > 0 && !Answers(probes[0]) {
      var tail := probes[1..];
      var k := Visited(probes, |hosts|);
      ProbeHostsTls(hosts[1..], tail, fastMode, Step(hosts[0], probes[0], fastMode, acc));
      if exists j :: 0 <= j < k && Upgraded(probes[j], fastMode) {
        var j :| 0 <= j < k && Upgraded(probes[j], fastMode);
        if j > 0 { assert Upgraded(tail[j - 1], fastMode); }
      }
      if exists j :: 0 <= j < k - 1 && Upgraded(tail[j], fastMode) {
        var j :| 0 <= j < k - 1 && Upgraded(tail[j], fastMode);
        assert Upgraded(probes[j + 1], fastMode);
      }
    }
  }

  lemma {:induction false} ProbeHostsLast(hosts: seq<string>, probes: seq<HostProbe>, fastMode: bool, acc: ConnResult)
    requires |probes| >= |hosts|
    ensures var r := ProbeHosts(hosts, probes, fastMode, acc);
            var k := Visited(probes, |hosts|);
      && ((forall j :: 0 <= j < k ==> !probes[j].portOpen) ==> r.mxUsed == acc.mxUsed && r.greeting == acc.greeting)
      && (forall j :: LastOpen(probes, k, j) ==>
            r.mxUsed == Some(hosts[j]) && r.greeting == Some(ReadGreeting(probes[j].banner)))
    decreases |hosts|
  {
    if |hosts| > 0 {
      var k := Visited(probes, |hosts|);
      if Answers(probes[0]) {
        assert forall j :: LastOpen(probes, k, j) ==> j == 0;
      } else {
        var tail := probes[1..];
        var next := Step(hosts[0], probes[0], fastMode, acc);
        ProbeHostsLast(hosts[1..], tail, fastMode, next);
        ShiftLastOpen(probes, k);
        if forall j :: 0 <= j < k ==> !probes[j].portOpen {
          assert forall j :: 0 <= j < k - 1 ==> !tail[j].portOpen by {
            forall j | 0 <= j < k - 1 ensures !tail[j].portOpen {
              assert tail[j] == probes[j + 1];
            }
          }
        }
        if probes[0].portOpen && forall j :: 0 <= j < k - 1 ==> !tail[j].portOpen {
          assert LastOpen(probes, k, 0);
        }
      }
    }
  }

  /** Dropping the first host shifts the last open one down by one. */
  lemma ShiftLastOpen(probes: seq<HostProbe>, k: nat)
    requires 0 < k <= |probes|
    ensures forall j :: LastOpen(probes, k, j) && j > 0 ==> LastOpen(probes[1..], k - 1, j - 1)
    ensures forall j {:trigger LastOpen(probes[1..], k - 1, j)} :: LastOpen(probes[1..], k - 1, j) ==> LastOpen(probes, k, j + 1)
    ensures forall j :: LastOpen(probes, k, j) ==> j > 0 || forall l :: 0 <= l < k - 1 ==> !probes[1..][l].portOpen
  {
    var tail := probes[1..];
    forall j | LastOpen(probes, k, j) && j > 0 ensures LastOpen(tail, k - 1, j - 1) {
      forall l | j - 1 < l < k - 1 ensures !tail[l].portOpen {
        assert tail[l] == probes[l + 1];
      }
    }
    forall j {:trigger LastOpen(tail, k - 1, j)} | LastOpen(tail, k - 1, j) ensures LastOpen(probes, k, j + 1) {
      forall l | j + 1 < l < k ensures !probes[l].portOpen {
        assert probes[l] == tail[l - 1];
      }
    }
    forall j | LastOpen(probes, k, j) && j == 0 ensures forall l :: 0 <= l < k - 1 ==> !tail[l].portOpen {
      forall l | 0 <= l < k - 1 ensures !tail[l].portOpen {
        assert tail[l] == probes[l + 1];
      }
    }
  }

  /** The loop exactly, from `acc` to `r`: it visits `Visited` hosts, adds
      their points, keeps the last port-open one as `mx_used` with its
      greeting, and reports TLS when some visited host upgraded. */
  ghost predicate ProbedExactly(r: ConnResult, acc: ConnResult, hosts: seq<string>, probes: seq<HostProbe>, fastMode: bool)
    requires |probes| >= |hosts|
  {
    var k := Visited(probes, |hosts|);
    && r.points == acc.points + SumHostPoints(probes, k, fastMode)
    && (r.tlsOk <==> acc.tlsOk || exists j :: 0 <= j < k && Upgraded(probes[j], fastMode))
    && ((forall j :: 0 <= j < k ==> !probes[j].portOpen) ==> r.mxUsed == acc.mxUsed && r.greeting == acc.greeting)
    && (forall j :: LastOpen(probes, k, j) ==>
          r.mxUsed == Some(hosts[j]) && r.greeting == Some(ReadGreeting(probes[j].banner)))
  }

  lemma ProbeHostsExact(hosts: seq<string>, probes: seq<HostProbe>, fastMode: bool, acc: ConnResult)
    requires |probes| >= |hosts|
    ensures ProbedExactly(ProbeHosts(hosts, probes, fastMode, acc), acc, hosts, probes, fastMode)
  {
    ProbeHostsPoints(hosts, probes, fastMode, acc);
    ProbeHostsTls(hosts, probes, fastMode, acc);
    ProbeHostsLast(hosts, probes, fastMode, acc);
  }

  /** When the first host answers, the loop ends there and its results are
      the whole result. */
  lemma FirstHostAnswers(hosts: seq<string>, probes: seq<HostProbe>, fastMode: bool)
    requires |probes| >= |hosts| > 0 && Answers(probes[0])
    ensures var r := ProbeHosts(hosts, probes, fastMode, NoConnection);
      && r.points == (if probes[0].tlsUpgraded && !fastMode then 15 else 10)
      && r.mxUsed == Some(hosts[0]) && r.greeting == Some(ReadGreeting(probes[0].banner))
      && (r.tlsOk <==> probes[0].tlsUpgraded && !fastMode)
  {
  }

  /** `_check_smtp_connection`: nothing to probe without MX hosts; a blocked
      provider or a transactional MX host skips the probe; otherwise the
      first two hosts are tried in order. `probes[i]` is what host `i` did. */
  function CheckConnection(domain: string, mxHosts: seq<string>, fastMode: bool, probes: seq<HostProbe>): (r: ConnResult)
    requires |probes| >= |Take(mxHosts, 2)|
    ensures |mxHosts| == 0 ==> r == NoConnection
    ensures r.skipped <==> |mxHosts| > 0 && (BlockedProvider(domain) || TransactionalHost(mxHosts))
    ensures r.port25Open <==> !r.skipped && exists i :: 0 <= i < |Take(mxHosts, 2)| && probes[i].portOpen
    ensures r.mxUsed.Some? <==> r.port25Open
    ensures r.greeting.Some? <==> r.port25Open
    ensures r.mxUsed.Some? ==> r.mxUsed.value in Take(mxHosts, 2)
    ensures r.skipped ==> r.points == 0
    ensures 0 <= r.points <= 30
    ensures r.tlsOk ==> !fastMode
    ensures r.error.None?
    ensures r.port25Open ==> r.points >= 10
    ensures !r.skipped ==> ProbedExactly(r, NoConnection, Take(mxHosts, 2), probes, fastMode)
  {
    if |mxHosts| == 0 then NoConnection
    else if SkipScan(domain, mxHosts) then NoConnection.(skipped := true)
    else
      ProbeHostsExact(Take(mxHosts, 2), probes, fastMode, NoConnection);
      ProbeHosts(Take(mxHosts, 2), probes, fastMode, NoConnection)
  }

  /** An exception raised inside the RCPT session, and the error text it leaves. */
  datatype SmtpFault = Disconnected | TimedOut | Raised(detail: string)

  function FaultText(f: SmtpFault): string {
    match f
    case Disconnected => "Server disconnected"
    case TimedOut => "Connection timeout"
    case Raised(detail) => "SMTP error: " + detail
  }

  /** How the RCPT session went: the client object could not be built; the
      session raised before RCPT; MAIL FROM was refused (then QUIT, which
      may itself raise); or RCPT TO got a reply after `elapsed` seconds
      (then QUIT, which may raise). */
  datatype RcptSession =
    | ClientFailed(detail: string)
    | Aborted(fault: SmtpFault)
    | SenderRefused(quitFault: Option<SmtpFault>)
    | Replied(code: int, message: string, elapsed: real, quitFault: Option<SmtpFault>)

  datatype ReplyClass = ReplyClass(
    accepted: bool, rejected: bool, hardFailure: bool, softFailure: bool,
    points: int, error: Option<string>)

  predicate IsAcceptCode(code: int) {
    code == 250 || code == 251
  }

  predicate UserUnknownText(message: string) {
    Contains(Lower(message), "user unknown") || Contains(Lower(message), "5.1.1")
  }

  /** Classification of the RCPT TO reply. */
  function ClassifyReply(code: int, message: string): (r: ReplyClass)
    ensures r.accepted <==> IsAcceptCode(code)
    ensures r.rejected <==> 500 <= code < 600
    ensures r.hardFailure <==> 500 <= code < 600 && (code != 550 || UserUnknownText(message))
    ensures r.softFailure <==> code == 421 || code == 450 || code == 451
    ensures !(r.accepted && r.rejected) && !(r.accepted && r.softFailure) && !(r.rejected && r.softFailure)
    ensures r.points == if r.accepted || r.softFailure then 10 else 0
    ensures r.error.None? <==> r.accepted || (code == 550 && !r.hardFailure)
  {
    if IsAcceptCode(code) then
      ReplyClass(true, false, false, false, 10, None)
    else if code == 550 then
      if UserUnknownText(message) then ReplyClass(false, true, true, false, 0, Some("User unknown"))
      else ReplyClass(false, true, false, false, 0, None)
    else if code == 450 || code == 451 then
      ReplyClass(false, false, false, true, 10, Some("Temporarily unavailable (greylisted)"))
    else if code == 421 then
      ReplyClass(false, false, false, true, 10, Some("Service unavailable, try again later"))
    else if 500 <= code < 600 then
      ReplyClass(false, true, true, false, 0, Some("Permanent SMTP error: " + IntToString(code)))
    else
      ReplyClass(false, false, false, false, 0, Some("Unexpected response: " + IntToString(code)))
  }

  /** Points for the time from connect to the RCPT reply: a reply within one
      second or after fifteen is suspicious. */
  function TimingPoints(elapsed: real): (p: int)
    ensures p == 5 <==> 1.0 <= elapsed <= 15.0
    ensures p < 0 <==> elapsed < 1.0 || elapsed > 15.0
    ensures elapsed < 1.0 ==> p == -10
    ensures elapsed > 15.0 ==> p == -5
  {
    if elapsed < 1.0 then -10 else if elapsed > 15.0 then -5 else 5
  }

  datatype RcptResult = RcptResult(
    accepted: bool, rejected: bool, hardFailure: bool, softFailure: bool, skipped: bool,
    points: int, error: Option<string>, responseCode: Option<int>, responseTime: real,
    timingPoints: int)

  const RcptInitial: RcptResult := RcptResult(false, false, false, false, false, 0, None, None, 0.0, 0)

  /** The RCPT session reached a reply and QUIT did not raise, so the reply
      was classified. */
  predicate Classified(session: RcptSession) {
    session.Replied? && session.quitFault.None?
  }

  /** `mx_used` as Python's truth test reads it: present and not empty. */
  predicate HostUsed(conn: ConnResult) {
    conn.mxUsed.Some? && conn.mxUsed.value != ""
  }

  /** The host the RCPT probe talks to: `mx_used` when it is truthy, else
      the first MX host when that is truthy, else none. */
  function RcptHost(conn: ConnResult, mxHosts: seq<string>): (h: Option<string>)
    ensures h.Some? ==> h.value != ""
    ensures h.Some? <==> HostUsed(conn) || (|mxHosts| > 0 && mxHosts[0] != "")
    ensures HostUsed(conn) ==> h == conn.mxUsed
    ensures !HostUsed(conn) && h.Some? ==> h == Some(mxHosts[0])
  {
    if HostUsed(conn) then conn.mxUsed
    else if |mxHosts| > 0 && mxHosts[0] != "" then Some(mxHosts[0])
    else None
  }

  /** `_check_smtp_rcpt`: skipped when the connection test skipped or found
      port 25 closed; untouched when there is no host to talk to; otherwise
      the session's outcome. */
  function CheckRcpt(conn: ConnResult, mxHosts: seq<string>, session: RcptSession): (r: RcptResult)
    ensures r.skipped <==> conn.skipped || !conn.port25Open
    ensures r.skipped ==> r == RcptInitial.(skipped := true)
    ensures !r.skipped && RcptHost(conn, mxHosts).None? ==> r == RcptInitial
    ensures r.accepted || r.rejected || r.softFailure || r.timingPoints != 0 ==>
      !r.skipped && RcptHost(conn, mxHosts).Some? && Classified(session)
    ensures !r.skipped && RcptHost(conn, mxHosts).Some? && Classified(session) ==>
      var c := ClassifyReply(session.code, session.message);
      && r.accepted == c.accepted && r.rejected == c.rejected
      && r.hardFailure == c.hardFailure && r.softFailure == c.softFailure
      && r.points == c.points && r.error == c.error
      && r.responseCode == Some(session.code) && r.responseTime == session.elapsed
      && r.timingPoints == TimingPoints(session.elapsed)
    ensures !r.skipped && RcptHost(conn, mxHosts).Some? && !Classified(session) ==>
      && !r.accepted && !r.rejected && !r.hardFailure && !r.softFailure
      && r.points == 0 && r.timingPoints == 0
      && (session.ClientFailed? ==> r.error == Some("Connection error: " + session.detail) && r.responseCode.None?)
      && (session.Aborted? ==> r.error == Some(FaultText(session.fault)) && r.responseCode.None?)
      && (session.SenderRefused? && session.quitFault.None? ==> r == RcptInitial)
      && (session.SenderRefused? && session.quitFault.Some? ==>
            r.error == Some(FaultText(session.quitFault.value)) && r.responseCode.None?)
      && (session.Replied? ==>
            r.error == Some(FaultText(session.quitFault.value))
            && r.responseCode == Some(session.code) && r.responseTime == session.elapsed)
    ensures !(!r.skipped && RcptHost(conn, mxHosts).Some? && session.Replied?) ==>
      r.responseTime == 0.0 && r.responseCode.None?
    ensures !(r.accepted && r.rejected)
    ensures r.hardFailure ==> r.rejected
  {
    if conn.skipped || !conn.port25Open then RcptInitial.(skipped := true)
    else
      var host := RcptHost(conn, mxHosts);
      if host.None? then RcptInitial
      else
        match session
        case ClientFailed(detail) => RcptInitial.(error := Some("Connection error: " + detail))
        case Aborted(fault) => RcptInitial.(error := Some(FaultText(fault)))
        case SenderRefused(quitFault) =>
          if quitFault.Some? then RcptInitial.(error := Some(FaultText(quitFault.value))) else RcptInitial
        case Replied(code, message, elapsed, quitFault) =>
          var timed := RcptInitial.(responseCode := Some(code), responseTime := elapsed);
          if quitFault.Some? then timed.(error := Some(FaultText(quitFault.value)))
          else
            var c := ClassifyReply(code, message);
            timed.(accepted := c.accepted, rejected := c.rejected, hardFailure := c.hardFailure,
                   softFailure := c.softFailure, points := c.points, error := c.error,
                   timingPoints := TimingPoints(elapsed))
  }

  /** A rejected recipient whose result carries no error text is exactly a
      plain 550 reply without "user unknown" or "5.1.1" in its text. */
  lemma RejectedWithoutError(conn: ConnResult, mxHosts: seq<string>, session: RcptSession)
    ensures var r := CheckRcpt(conn, mxHosts, session);
      r.rejected && r.error.None? <==>
        && !r.skipped && RcptHost(conn, mxHosts).Some? && Classified(session)
        && session.code == 550 && !UserUnknownText(session.message)
  {
  }

  /** Alphabet of the random catch-all token. */
  predicate IsTokenChar(c: char) {
    'a' <= c <= 'z' || '0' <= c <= '9'
  }

  datatype CatchAllResult = CatchAllResult(isCatchall: bool, testEmail: string, skipped: bool)

  /** `_detect_catch_all`: probe `<token>@<domain>` with a fresh connection
      test (in fast mode) and RCPT probe; the domain is catch-all when that
      surely-unknown recipient is accepted. `token` stands for the 15 random
      `[a-z0-9]` characters the source draws. */
  function DetectCatchAll(domain: string, mxHosts: seq<string>, token: string,
                          probes: seq<HostProbe>, session: RcptSession): (r: CatchAllResult)
    requires |token| == 15 && forall i :: 0 <= i < |token| ==> IsTokenChar(token[i])
    requires |probes| >= |Take(mxHosts, 2)|
    ensures r.testEmail == token + "@" + domain
    ensures var conn := CheckConnection(domain, mxHosts, true, probes);
      r.skipped <==> conn.skipped || !conn.port25Open
    ensures r.isCatchall <==>
      && |mxHosts| > 0 && !BlockedProvider(domain) && !TransactionalHost(mxHosts)
      && (exists i :: 0 <= i < |Take(mxHosts, 2)| && probes[i].portOpen)
      && RcptHost(CheckConnection(domain, mxHosts, true, probes), mxHosts).Some?
      && Classified(session) && IsAcceptCode(session.code)
    ensures !(r.isCatchall && r.skipped)
  {
    var testEmail := token + "@" + domain;
    var conn := CheckConnection(domain, mxHosts, true, probes);
    if conn.skipped || !conn.port25Open then CatchAllResult(false, testEmail, true)
    else
      var rcpt := CheckRcpt(conn, mxHosts, session);
      CatchAllResult(rcpt.accepted, testEmail, false)
  }
}
