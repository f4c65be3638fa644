/** The point helpers of a verification: each one turns what a probe
    reported into a handful of points. Probes that only talk to the network
    are inputs; what is modelled is the decision over their reports. */
module Heuristics {
  import opened Wrappers
  import opened Text
  import Smtp

  // ---------------------------------------------------------------------
  // SMTP error pattern classification

  datatype ErrorCategory =
    | RateLimited | Greylisted | PolicyBlock | ConnectionRefused | DeadServer | ConnectionReset
    | UnknownCategory

  /** One line of the if-chain: the category it assigns, its points and the
      phrases any one of which selects it. */
  datatype PatternRule = PatternRule(category: ErrorCategory, points: int, phrases: seq<string>)

  /** The rules in the order the if/elif chain tries them. */
  const PatternRules: seq<PatternRule> := [
    PatternRule(RateLimited, 5, ["rate limit", "too many", "429"]),
    PatternRule(Greylisted, 10, ["greylist", "451", "temporarily"]),
    PatternRule(PolicyBlock, 3, ["policy", "privacy", "not allowed"]),
    PatternRule(ConnectionRefused, 3, ["connection refused", "refused"]),
    PatternRule(DeadServer, -20, ["timeout", "dead", "no route"]),
    PatternRule(ConnectionReset, 0, ["reset"])
  ]

  predicate RuleHits(text: string, rule: PatternRule) {
    exists i :: 0 <= i < |rule.phrases| && Contains(text, rule.phrases[i])
  }

  datatype PatternResult = PatternResult(category: ErrorCategory, points: int)

  /** The text the classifier looks at: the RCPT error if it is a non-empty
      string, otherwise the connection error (absent reads as ""), lowered. */
  function ErrorText(rcptError: Option<string>, connError: Option<string>): (t: string)
    ensures rcptError.Some? && rcptError.value != "" ==> t == Lower(rcptError.value)
    ensures !(rcptError.Some? && rcptError.value != "") ==> t == Lower(connError.GetOr(""))
  {
    if rcptError.Some? && rcptError.value != "" then Lower(rcptError.value) else Lower(connError.GetOr(""))
  }

  function HitTest(text: string): PatternRule -> bool {
    (rule: PatternRule) => RuleHits(text, rule)
  }

  /** Reference reading of the chain: the first rule of the table that hits
      decides category and points; no hit is `unknown` with no points. */
  function TableClassify(text: string): (r: PatternResult)
    ensures r.category == UnknownCategory <==> forall i :: 0 <= i < |PatternRules| ==> !RuleHits(text, PatternRules[i])
    ensures r.category != UnknownCategory ==>
      exists i :: 0 <= i < |PatternRules| && RuleHits(text, PatternRules[i])
        && r == PatternResult(PatternRules[i].category, PatternRules[i].points)
        && forall j :: 0 <= j < i ==> !RuleHits(text, PatternRules[j])
    ensures r.category == UnknownCategory ==> r.points == 0
  {
    match FirstIndex(PatternRules, HitTest(text))
    case None => PatternResult(UnknownCategory, 0)
    case Some(i) =>
      assert HitTest(text)(PatternRules[i]);
      PatternResult(PatternRules[i].category, PatternRules[i].points)
  }

  /** The if-chain as written, one test per line. */
  function ClassifyText(text: string): PatternResult {
    if Contains(text, "rate limit") || Contains(text, "too many") || Contains(text, "429") then
      PatternResult(RateLimited, 5)
    else if Contains(text, "greylist") || Contains(text, "451") || Contains(text, "temporarily") then
      PatternResult(Greylisted, 10)
    else if Contains(text, "policy") || Contains(text, "privacy") || Contains(text, "not allowed") then
      PatternResult(PolicyBlock, 3)
    else if Contains(text, "connection refused") || Contains(text, "refused") then
      PatternResult(ConnectionRefused, 3)
    else if Contains(text, "timeout") || Contains(text, "dead") || Contains(text, "no route") then
      PatternResult(DeadServer, -20)
    else if Contains(text, "reset") then
      PatternResult(ConnectionReset, 0)
    else
      PatternResult(UnknownCategory, 0)
  }

  /** The chain and the table agree on every text. */
  lemma ChainIsTable(text: string)
    ensures ClassifyText(text) == TableClassify(text)
  {
    var h := HitTest(text);
    RuleHitsOf(text, PatternRules[0]);
    RuleHitsOf(text, PatternRules[1]);
    RuleHitsOf(text, PatternRules[2]);
    RuleHitsOf(text, PatternRules[3]);
    RuleHitsOf(text, PatternRules[4]);
    RuleHitsOf(text, PatternRules[5]);
    assert forall k :: 0 <= k < |PatternRules| ==> (h(PatternRules[k]) <==> RuleHits(text, PatternRules[k]));
  }

  /** A rule hits exactly when one of its phrases occurs, spelled out for the
      at most three phrases each rule has. */
  lemma RuleHitsOf(text: string, rule: PatternRule)
    requires 1 <= |rule.phrases| <= 3
    ensures RuleHits(text, rule) <==>
      || Contains(text, rule.phrases[0])
      || (|rule.phrases| > 1 && Contains(text, rule.phrases[1]))
      || (|rule.phrases| > 2 && Contains(text, rule.phrases[2]))
  {
  }

  /** `_classify_smtp_error_pattern`. */
  function ClassifyErrorPattern(rcptError: Option<string>, connError: Option<string>): (r: PatternResult)
    ensures r == TableClassify(ErrorText(rcptError, connError))
  {
    var text := ErrorText(rcptError, connError);
    ChainIsTable(text);
    ClassifyText(text)
  }

  /** The RCPT error, when there is one, decides alone: the connection error
      is not looked at. */
  lemma RcptErrorTakesPrecedence(e: string, c1: Option<string>, c2: Option<string>)
    requires e != ""
    ensures ClassifyErrorPattern(Some(e), c1) == ClassifyErrorPattern(Some(e), c2)
  {
  }

  // ---------------------------------------------------------------------
  // Provider-level behaviour rules

  datatype ProviderRule = ProviderRule(provider: string, maxScoreWithoutRcpt: int)

  /** In table order; the first matching provider is the one applied. */
  const ProviderRules: seq<ProviderRule> := [
    ProviderRule("gmail.com", 55), ProviderRule("googlemail.com", 55),
    ProviderRule("outlook.com", 60), ProviderRule("hotmail.com", 60), ProviderRule("live.com", 60),
    ProviderRule("yahoo.com", 55), ProviderRule("yahoo.co.uk", 55),
    ProviderRule("zoho.com", 75), ProviderRule("protonmail.com", 50),
    ProviderRule("icloud.com", 50), ProviderRule("me.com", 50), ProviderRule("mac.com", 50)
  ]

  datatype ProviderOutcome = ProviderOutcome(
    provider: Option<string>, ruleApplied: bool, scoreAdjusted: bool, adjustedScore: int,
    reliableRejection: bool)

  function ProviderTest(domain: string): ProviderRule -> bool {
    (rule: ProviderRule) => Smtp.MatchesProvider(Lower(domain), rule.provider)
  }

  /** The `i`-th provider of the table matches the domain. */
  predicate ProviderAt(domain: string, i: int)
    requires 0 <= i < |ProviderRules|
  {
    Smtp.MatchesProvider(Lower(domain), ProviderRules[i].provider)
  }

  /** The provider loop: the index of the first provider matching the domain. */
  function FirstProvider(domain: string): (r: Option<nat>)
    ensures r.Some? ==> r.value < |ProviderRules| && ProviderAt(domain, r.value)
    ensures r.Some? ==> forall j :: 0 <= j < r.value ==> !ProviderAt(domain, j)
    ensures r.None? <==> forall j :: 0 <= j < |ProviderRules| ==> !ProviderAt(domain, j)
  {
    var f := FirstIndex(ProviderRules, ProviderTest(domain));
    assert forall j :: 0 <= j < |ProviderRules| ==> (ProviderTest(domain)(ProviderRules[j]) <==> ProviderAt(domain, j));
    f
  }

  /** `_apply_provider_rules`: the first provider matching the domain caps
      the running score at its maximum when the RCPT probe was not accepted;
      a Zoho rejection is marked reliable. */
  function ApplyProviderRules(domain: string, accepted: bool, rejected: bool, current: int): (r: ProviderOutcome)
    ensures r.adjustedScore <= current
    ensures r.scoreAdjusted <==> r.adjustedScore != current
    ensures r.scoreAdjusted ==> !accepted
    ensures r.ruleApplied <==> r.provider.Some?
    ensures r.ruleApplied <==> FirstProvider(domain).Some?
    ensures r.ruleApplied ==>
      var rule := ProviderRules[FirstProvider(domain).value];
      && r.provider == Some(rule.provider)
      && (r.scoreAdjusted <==> !accepted && current > rule.maxScoreWithoutRcpt)
      && (r.scoreAdjusted ==> r.adjustedScore == rule.maxScoreWithoutRcpt)
    ensures r.reliableRejection <==> r.provider == Some("zoho.com") && rejected
  {
    match FirstProvider(domain)
    case None => ProviderOutcome(None, false, false, current, false)
    case Some(i) =>
      var rule := ProviderRules[i];
      var adjust := !accepted && current > rule.maxScoreWithoutRcpt;
      ProviderOutcome(Some(rule.provider), true, adjust,
                      if adjust then rule.maxScoreWithoutRcpt else current,
                      rule.provider == "zoho.com" && rejected)
  }

  // ---------------------------------------------------------------------
  // Threshold helpers

  /** `_check_domain_age`: months are days / 30; the domain age in whole days
      comes from WHOIS, `None` when it could not be determined. */
  function AgePoints(ageDays: Option<int>): (p: int)
    ensures ageDays.None? ==> p == 0
    ensures ageDays.Some? ==> (p == -15 <==> ageDays.value < 30)
    ensures ageDays.Some? ==> (p == 0 <==> 30 <= ageDays.value < 360)
    ensures ageDays.Some? ==> (p == 10 <==> ageDays.value >= 360)
  {
    match ageDays
    case None => 0
    case Some(days) =>
      var months := days as real / 30.0;
      if months < 1.0 then -15 else if months < 12.0 then 0 else 10
  }

  /** `_check_mx_redundancy`. */
  function MxRedundancyPoints(mxCount: nat): (p: int)
    ensures p < 0 <==> mxCount < 2
    ensures mxCount == 0 ==> p == -20
    ensures 2 <= mxCount <= 4 <==> p == 5
    ensures p == 3 <==> mxCount > 4
    ensures p == -3 <==> mxCount == 1
  {
    if mxCount == 0 then -20 else if mxCount == 1 then -3 else if mxCount <= 4 then 5 else 3
  }

  /** `str(x)` of an optional error text: Python prints `None` for a missing one. */
  function ReprOrNone(e: Option<string>): string {
    match e
    case None => "None"
    case Some(s) => s
  }

  /** `str(response_code)`, with `None` for no reply. */
  function CodeRepr(code: Option<int>): string {
    match code
    case None => "None"
    case Some(c) => IntToString(c)
  }

  /** The MAIL FROM check of `_check_smtp_strictness`: a truthy reply code
      other than 250/251 whose `str(error)` mentions "mail". */
  predicate MailFromCheck(rcpt: Smtp.RcptResult) {
    && rcpt.responseCode.Some? && rcpt.responseCode.value != 0
    && !Smtp.IsAcceptCode(rcpt.responseCode.value)
    && Contains(Lower(ReprOrNone(rcpt.error)), "mail")
  }

  /** The malformed-command check: a rejection with reply code 500, 501 or 502. */
  predicate MalformedCheck(rcpt: Smtp.RcptResult) {
    rcpt.rejected && rcpt.responseCode.Some? && rcpt.responseCode.value in {500, 501, 502}
  }

  predicate AntiSpamText(errorLower: string) {
    Contains(errorLower, "spam") || Contains(errorLower, "policy") || Contains(errorLower, "block")
  }

  /** The anti-spam check, reading a missing error as the empty text. */
  predicate AntiSpamCheck(rcpt: Smtp.RcptResult) {
    AntiSpamText(Lower(rcpt.error.GetOr("")))
  }

  /** The checks `_check_smtp_strictness` adds up before banding, except the
      anti-spam check, which is the one that reads the error as a string. */
  function StrictnessBase(greetingValid: bool, rcpt: Smtp.RcptResult): (raw: int)
    ensures 0 <= raw <= 8
    ensures raw >= 6 <==> MailFromCheck(rcpt) && MalformedCheck(rcpt)
    ensures raw == 0 <==> !greetingValid && !MailFromCheck(rcpt) && !MalformedCheck(rcpt)
    ensures raw % 3 == (if greetingValid then 2 else 0)
  {
    (if greetingValid then 2 else 0)
    + (if MailFromCheck(rcpt) then 3 else 0)
    + (if MalformedCheck(rcpt) then 3 else 0)
  }

  /** strict (>= 8) is worth 10, moderate (>= 4) nothing, loose -5. */
  function StrictnessBand(raw: int): (p: int)
    ensures p == 10 <==> raw >= 8
    ensures p == 0 <==> 4 <= raw < 8
    ensures p == -5 <==> raw < 4
  {
    if raw >= 8 then 10 else if raw >= 4 then 0 else -5
  }

  /** The message Python gives for `None.lower()`. */
  const NoneLower: string := "'NoneType' object has no attribute 'lower'"

  /** `_check_smtp_strictness` as written: `smtp_rcpt.get("error", "").lower()`
      finds the key present with value `None` whenever the RCPT probe left no
      error text, and raises. */
  function StrictnessPoints(greetingValid: bool, rcpt: Smtp.RcptResult): (r: Result<int, string>)
    ensures r.Failure? <==> rcpt.error.None?
    ensures r.Failure? ==> r.error == NoneLower
    ensures r.Success? ==> r.value == StrictnessPointsFixed(greetingValid, rcpt)
  {
    match rcpt.error
    case None => Failure(NoneLower)
    case Some(e) =>
      var raw := StrictnessBase(greetingValid, rcpt) + (if AntiSpamText(Lower(e)) then 2 else 0);
      Success(StrictnessBand(raw))
  }

  /** The evidently intended reading: a missing error is the empty text. With
      weights 2 (greeting), 3 (MAIL FROM), 3 (malformed) and 2 (anti-spam),
      strict needs both 3s and one 2; loose is a sum below 4. */
  function StrictnessPointsFixed(greetingValid: bool, rcpt: Smtp.RcptResult): (p: int)
    ensures p in {10, 0, -5}
    ensures p == 10 <==> MailFromCheck(rcpt) && MalformedCheck(rcpt) && (greetingValid || AntiSpamCheck(rcpt))
    ensures p == -5 <==>
      || (!MailFromCheck(rcpt) && !MalformedCheck(rcpt) && !(greetingValid && AntiSpamCheck(rcpt)))
      || (MailFromCheck(rcpt) != MalformedCheck(rcpt) && !greetingValid && !AntiSpamCheck(rcpt))
    ensures p == 10 ==> rcpt.rejected && rcpt.responseCode.Some? && rcpt.responseCode.value in {500, 501, 502}
    ensures rcpt.error.None? ==> p == StrictnessBand(StrictnessBase(greetingValid, rcpt))
  {
    StrictnessBand(StrictnessBase(greetingValid, rcpt) + (if AntiSpamCheck(rcpt) then 2 else 0))
  }

  /** A RCPT reply of 500, 501 or 502 leaves "Permanent SMTP error: 50x" as
      its error, which never mentions "mail"; so no RCPT result passes both
      3-point checks and the strict band is never reached. */
  lemma StrictBandUnreachable(greetingValid: bool, conn: Smtp.ConnResult, mxHosts: seq<string>,
                              session: Smtp.RcptSession)
    ensures !(MailFromCheck(Smtp.CheckRcpt(conn, mxHosts, session))
              && MalformedCheck(Smtp.CheckRcpt(conn, mxHosts, session)))
    ensures StrictnessPointsFixed(greetingValid, Smtp.CheckRcpt(conn, mxHosts, session)) != 10
  {
    var r := Smtp.CheckRcpt(conn, mxHosts, session);
    if MalformedCheck(r) {
      var code := session.code;
      var e := "Permanent SMTP error: " + IntToString(code);
      assert r.error == Some(e);
      var low := Lower(e);
      forall i | 0 <= i < |low| ensures low[i] != "mail"[2] {
        if i >= 22 {
          assert e[i] == NatToString(code)[i - 22];
        }
      }
      MissingCharNotContained(low, "mail", 2);
    }
  }

  /** `_analyze_server_behavior`: +3 for a valid greeting, +5 for STARTTLS,
      +2 for a reply within a second, -2 for one slower than five seconds. */
  function ServerBehaviorPoints(greetingValid: bool, tlsOk: bool, responseTime: real): (p: int)
    ensures -2 <= p <= 10
    ensures p == (if greetingValid then 3 else 0) + (if tlsOk then 5 else 0)
                 + (if 0.0 < responseTime < 1.0 then 2 else if responseTime > 5.0 then -2 else 0)
  {
    var raw := (if greetingValid then 3 else 0) + (if tlsOk then 5 else 0)
               + (if 0.0 < responseTime < 1.0 then 2 else if responseTime > 5.0 then -2 else 0);
    Clamp(raw, -5, 15)
  }

  function Clamp(x: int, lo: int, hi: int): (r: int)
    requires lo <= hi
    ensures lo <= r <= hi
    ensures lo <= x <= hi ==> r == x
    ensures x < lo ==> r == lo
    ensures x > hi ==> r == hi
  {
    if x < lo then lo else if x > hi then hi else x
  }

  /** `_analyze_connection_latency` over the RCPT response time. */
  function LatencyPoints(rcptTime: real): (p: int)
    ensures p == -10 <==> rcptTime < 0.5
    ensures p == 8 <==> 0.5 <= rcptTime <= 3.0
    ensures p == 0 <==> 3.0 < rcptTime <= 10.0
    ensures p == -5 <==> rcptTime > 10.0
  {
    if rcptTime < 0.5 then -10
    else if rcptTime <= 3.0 then 8
    else if rcptTime <= 10.0 then 0
    else -5
  }

  const ProfessionalBannerPatterns: seq<string> := [
    "esmtp", "postfix", "sendmail", "exim", "microsoft", "exchange",
    "mailjet", "sendgrid", "mailgun", "amazon", "google"
  ]

  const SuspiciousBannerPatterns: seq<string> := ["test", "fake", "honeypot", "spam"]

  /** Some pattern of the list occurs in the text. */
  predicate AnyOccurs(text: string, patterns: seq<string>) {
    exists i :: 0 <= i < |patterns| && Contains(text, patterns[i])
  }

  function OccursIn(text: string): string -> bool {
    (p: string) => Contains(text, p)
  }

  /** The scan `for p in patterns: if p in text` finds one exactly when one occurs. */
  lemma ScanFinds(text: string, patterns: seq<string>)
    ensures FirstIndex(patterns, OccursIn(text)).Some? <==> AnyOccurs(text, patterns)
  {
    var f := FirstIndex(patterns, OccursIn(text));
    if AnyOccurs(text, patterns) {
      var i :| 0 <= i < |patterns| && Contains(text, patterns[i]);
      assert OccursIn(text)(patterns[i]);
    }
  }

  /** `_analyze_smtp_banner`: a known mail server or provider name is worth
      8; a suspicious word, or fewer than ten characters, costs 8. */
  function BannerPoints(banner: string): (p: int)
    ensures p == 8 <==> AnyOccurs(Lower(banner), ProfessionalBannerPatterns)
    ensures p == -8 <==>
      !AnyOccurs(Lower(banner), ProfessionalBannerPatterns)
      && (AnyOccurs(Lower(banner), SuspiciousBannerPatterns) || |Strip(banner)| < 10)
    ensures p in {8, -8, 0}
  {
    var low := Lower(banner);
    ScanFinds(low, ProfessionalBannerPatterns);
    ScanFinds(low, SuspiciousBannerPatterns);
    if FirstIndex(ProfessionalBannerPatterns, OccursIn(low)).Some? then 8
    else if FirstIndex(SuspiciousBannerPatterns, OccursIn(low)).Some? then -8
    else if |Strip(banner)| < 10 then -8
    else 0
  }

  /** Trusted MX brands in dictionary order, with the name reported. */
  const MxBrands: seq<(string, string)> := [
    ("google.com", "Gmail"), ("outlook.com", "Microsoft"), ("secureserver.net", "GoDaddy"),
    ("privateemail.com", "Namecheap"), ("mailsrvr.com", "Rackspace"), ("amazonaws.com", "AWS SES"),
    ("sendgrid.net", "SendGrid"), ("mailgun.org", "Mailgun"), ("mailgun.com", "Mailgun"),
    ("zoho.com", "Zoho"), ("yahoo.com", "Yahoo"), ("aol.com", "AOL")
  ]

  function BrandTest(hostLower: string): ((string, string)) -> bool {
    (b: (string, string)) => Contains(hostLower, b.0)
  }

  /** `_check_mx_brand`: 10 points and the brand name for a trusted MX host,
      else nothing and "custom". */
  function MxBrand(mxHost: string): (r: (int, string))
    ensures r.0 == 10 <==> exists i :: 0 <= i < |MxBrands| && Contains(Lower(mxHost), MxBrands[i].0)
    ensures r.0 == 0 <==> r.1 == "custom"
    ensures r.0 == 10 ==> exists i :: (0 <= i < |MxBrands| && Contains(Lower(mxHost), MxBrands[i].0)
      && r.1 == MxBrands[i].1 && forall j :: 0 <= j < i ==> !Contains(Lower(mxHost), MxBrands[j].0))
    ensures r.0 in {0, 10}
  {
    var low := Lower(mxHost);
    match FirstIndex(MxBrands, BrandTest(low))
    case None => (0, "custom")
    case Some(i) => (10, MxBrands[i].1)
  }

  const PopularMxPatterns: seq<string> := [
    "privateemail.com", "zoho.com", "hostinger.com", "google.com", "outlook.com",
    "yahoo.com", "amazonaws.com", "sendgrid.net", "mailgun.org"
  ]

  /** `_check_mx_popularity`: 10 points for a widely shared MX host. */
  function PopularityPoints(mxHost: string): (p: int)
    ensures p == 10 <==> AnyOccurs(Lower(mxHost), PopularMxPatterns)
    ensures p in {0, 10}
  {
    var low := Lower(mxHost);
    ScanFinds(low, PopularMxPatterns);
    if FirstIndex(PopularMxPatterns, OccursIn(low)).Some? then 10 else 0
  }

  /** `_analyze_blocklist_behavior` as written. A rejected recipient reads
      `smtp_rcpt.get("error", "").lower()`, which raises when the rejection
      left no error text. The connection result never carries an error, so
      `connError` is `None` in every call the verifier makes. */
  function BlocklistPoints(rcpt: Smtp.RcptResult, connError: Option<string>): (r: Result<int, string>)
    ensures r.Failure? <==> rcpt.rejected && rcpt.error.None?
    ensures r.Success? ==> r.value == BlocklistPointsFixed(rcpt, connError)
  {
    if rcpt.rejected then
      match rcpt.error
      case None => Failure(NoneLower)
      case Some(e) => Success(if Contains(Lower(e), "user unknown") || Contains(CodeRepr(rcpt.responseCode), "550") then 5 else 0)
    else Success(BlocklistPointsFixed(rcpt, connError))
  }

  /** The evidently intended reading: a missing error is the empty text. */
  function BlocklistPointsFixed(rcpt: Smtp.RcptResult, connError: Option<string>): (p: int)
    ensures rcpt.rejected ==> (p == 5 <==>
      Contains(Lower(rcpt.error.GetOr("")), "user unknown") || Contains(CodeRepr(rcpt.responseCode), "550"))
    ensures rcpt.rejected && p != 5 ==> p == 0
    ensures !rcpt.rejected && rcpt.accepted ==> p == 0
    ensures !rcpt.rejected && !rcpt.accepted && rcpt.softFailure ==> p == 3
    ensures connError.None? && !rcpt.rejected && !rcpt.softFailure ==> p == 0
    ensures p in {5, 3, 2, 0, -3}
  {
    if rcpt.rejected then
      var e := Lower(rcpt.error.GetOr(""));
      if Contains(e, "user unknown") || Contains(CodeRepr(rcpt.responseCode), "550") then 5 else 0
    else if rcpt.accepted then 0
    else if rcpt.softFailure then 3
    else if connError.Some? && connError.value != "" then
      var e := Lower(connError.value);
      if Contains(e, "timeout") then -3 else if Contains(e, "policy") then 2 else 0
    else 0
  }

  /** The decimal text of 550 contains "550". */
  lemma Code550Text()
    ensures CodeRepr(Some(550)) == "550"
    ensures Contains(CodeRepr(Some(550)), "550")
  {
    assert NatToString(550) == NatToString(55) + [DigitChar(0)];
    assert NatToString(55) == NatToString(5) + [DigitChar(5)];
    assert CodeRepr(Some(550))[0..] == "550";
  }

  /** Every rejection that crashes the as-written blocklist step is a plain
      550, so the corrected step scores it as an instant reject. */
  lemma BlocklistCrashIsInstantReject(conn: Smtp.ConnResult, mxHosts: seq<string>, session: Smtp.RcptSession)
    requires BlocklistPoints(Smtp.CheckRcpt(conn, mxHosts, session), None).Failure?
    ensures BlocklistPointsFixed(Smtp.CheckRcpt(conn, mxHosts, session), None) == 5
  {
    Smtp.RejectedWithoutError(conn, mxHosts, session);
    Code550Text();
  }

  /** A plain "550 Rejected" reply to RCPT TO makes the as-written blocklist
      step raise, where the corrected step scores the instant reject. */
  lemma PlainRejectCrashesBlocklist(conn: Smtp.ConnResult, mxHosts: seq<string>)
    requires conn.port25Open && !conn.skipped && Smtp.HostUsed(conn)
    ensures var r := Smtp.CheckRcpt(conn, mxHosts, Smtp.Replied(550, "Rejected", 2.0, None));
      && r.rejected && r.error.None?
      && BlocklistPoints(r, None).Failure?
      && BlocklistPointsFixed(r, None) == 5
  {
    var low := Lower("Rejected");
    assert forall i :: 0 <= i < |low| ==> low[i] != 'u' && low[i] != '5';
    MissingCharNotContained(low, "user unknown", 0);
    MissingCharNotContained(low, "5.1.1", 0);
    Code550Text();
  }

  /** An accepted recipient leaves no error text, so outside fast mode the
      as-written strictness step raises on every deliverable address. */
  lemma AcceptedCrashesStrictness(greetingValid: bool, conn: Smtp.ConnResult, mxHosts: seq<string>,
                                  message: string, elapsed: real)
    requires conn.port25Open && !conn.skipped && Smtp.HostUsed(conn)
    ensures var r := Smtp.CheckRcpt(conn, mxHosts, Smtp.Replied(250, message, elapsed, None));
      && r.accepted && r.error.None?
      && StrictnessPoints(greetingValid, r).Failure?
  {
  }

  /** How many elements satisfy `p`. */
  function CountWhere<T>(xs: seq<T>, p: T -> bool): (n: nat)
    ensures n <= |xs|
    ensures n == |xs| <==> forall i :: 0 <= i < |xs| ==> p(xs[i])
    ensures n == 0 <==> forall i :: 0 <= i < |xs| ==> !p(xs[i])
  {
    if |xs| == 0 then 0
    else (if p(xs[0]) then 1 else 0) + CountWhere(xs[1..], p)
  }

  /** A role-account probe: the RCPT reply code, or `None` when the session raised. */
  predicate RoleValid(reply: Option<int>) {
    reply.Some? && Smtp.IsAcceptCode(reply.value)
  }

  const RoleAccounts: seq<string> := ["postmaster", "abuse", "support", "info"]

  /** `_check_role_accounts`: +6 when all four role addresses are accepted,
      -6 when none is, nothing in between or without MX hosts. */
  function RolePoints(hasMx: bool, replies: seq<Option<int>>): (p: int)
    requires |replies| == |RoleAccounts|
    ensures !hasMx ==> p == 0
    ensures hasMx ==> (p == 6 <==> forall i :: 0 <= i < |replies| ==> RoleValid(replies[i]))
    ensures hasMx ==> (p == -6 <==> forall i :: 0 <= i < |replies| ==> !RoleValid(replies[i]))
    ensures p in {6, 0, -6}
  {
    if !hasMx then 0
    else
      var valid := CountWhere(replies, RoleValid);
      if valid == |RoleAccounts| then 6 else if valid == 0 then -6 else 0
  }

  function IsTrue(b: bool): bool { b }

  /** `_check_tcp_stability` over three connection attempts: all three
      succeed +5; at least one (`3 // 2`) 0; none -5. */
  function TcpStabilityPoints(attempts: seq<bool>): (p: int)
    requires |attempts| == 3
    ensures p == 5 <==> forall i :: 0 <= i < 3 ==> attempts[i]
    ensures p == -5 <==> forall i :: 0 <= i < 3 ==> !attempts[i]
    ensures p in {5, 0, -5}
  {
    var stable := CountWhere(attempts, IsTrue);
    if stable == 3 then 5 else if stable >= 3 / 2 then 0 else -5
  }

  /** What `_check_tcp_stability`'s sibling, the QUIT probe, saw: a reply
      code to QUIT, QUIT raising, or no session at all. */
  datatype QuitOutcome = QuitReplied(code: int) | QuitRaised | NoSession

  /** `_check_quit_behavior`: a 221 reply to QUIT is +4, anything else -4;
      without a session the probe is skipped. */
  function QuitPoints(q: QuitOutcome): (p: int)
    ensures p == 4 <==> q == QuitReplied(221)
    ensures p == 0 <==> q.NoSession?
    ensures p == -4 <==> (q.QuitReplied? && q.code != 221) || q.QuitRaised?
  {
    match q
    case QuitReplied(code) => if code == 221 then 4 else -4
    case QuitRaised => -4
    case NoSession => 0
  }

  /** `_smtp_retry_simulation`: the RCPT is retried twice against the first
      MX host; an accepted reply on either attempt confirms the mailbox (+20).
      Each attempt is its reply code, or `None` when the session raised. */
  function RetryPoints(attempts: seq<Option<int>>): (p: int)
    ensures p == 20 <==> exists i :: 0 <= i < |Take(attempts, 2)| && RoleValid(attempts[i])
    ensures p in {0, 20}
  {
    if FirstIndex(Take(attempts, 2), RoleValid).Some? then 20 else 0
  }
}
