# Email verifier scoring core and bulk job registry, in Dafny

This project models two parts of the email verifier backend.

**Scoring (`EmailVerifier.verify_email` and its helpers).** The backend checks
one address in four stages:

1. It checks the syntax with an anchored regular expression. An invalid
   address is reported immediately.
2. It looks up the domain. A domain that does not exist is reported
   immediately.
3. It collects about forty signals. Each signal is a point delta that is
   applied or not depending on fast mode, on whether an MX host was
   reached, and on other gates.
4. It clamps the total to 0..100 and turns it into a status band. A
   per-domain override may then raise the score or force the status.

Everything the backend learns from the network is an explicit input here:

- Each MX host probe is a `HostProbe`: port open, banner read, connected,
  TLS upgraded.
- The RCPT TO conversation is a `RcptSession`.
- The catch-all probe, role-account replies, QUIT reply, TCP attempts and
  greylist retries are inputs of their own.
- The DNS and age lookups are inputs too.
- Probes that only turn network state into points are abstract integers in
  `Others`: security reputation, web presence, provider fingerprint, TLS
  certificate, mail ports, DNSSEC, PTR, IP reputation, MX consistency, TLS
  policy, MAIL FROM health, load balancer, VRFY lite, greylist depth and
  domain blacklists.

Everything the backend computes from those inputs is modelled with the same
constants, the same branch order and Python's truth tests. For example, an
empty `mx_used` host name counts as "no MX host used" (`Smtp.HostUsed`). The
model covers:

- the connection test and its skip lists;
- the RCPT reply classification and the timing buckets;
- catch-all detection;
- the error-pattern table and the provider caps;
- the strictness, blocklist, banner, brand, popularity, latency, role,
  QUIT, TCP stability and retry heuristics;
- the hard-failure cap;
- the clamp, the bands and the overrides.

The score is a fold over steps `Add(points)` and `Cap(limit)` (module
`Scoring`). That makes it possible to state:

- the hard-failure cap bounds only the running total at that point;
- the provider cap is exactly `_apply_provider_rules`;
- the final score is monotone in every abstract probe's points.

**Jobs (`JobManager`).** This is a map from job id to job record. Every
method runs under the registry lock, so each method is one functional
update. Each operation keeps the record's row counters consistent and the
error log at most ten entries long. No operation touches another job.

**Caches (`_get_cached` / `_set_cache`).** These are modelled as a map with
expiry times. The clock is a parameter.

Modules:

- `Wrappers`: Option and Result.
- `Text`: ASCII lowering, substring test, `strip`, slicing helpers.
- `Syntax`: the address pattern, split into a reference reading and an
  executable check.
- `TtlCache`: the caches.
- `Smtp`: the connection test, RCPT classification and catch-all detection.
- `Heuristics`: the per-signal point functions.
- `Scoring`: the fold, the bands, the overrides and `verify_email`.
- `Jobs`: the job registry.

The substring test in the skip list (`blocked in domain_lower`) is kept as
written. It skips more domains than the list names: `Smtp.SubstringSkipsAcme`
shows that `acme.com` is skipped because it contains `me.com`.

## Model

| member | source | states |
|---|---|---|
| Syntax.CheckSyntax | backend/email_verifier.py:401-411 | The address is valid exactly when it matches the anchored pattern. `$` admits one trailing newline. Valid gives 10 points, invalid gives 0. |
| Syntax.ValidSyntaxIsPattern | backend/email_verifier.py:404-405 | The executable scan (the last dot, a TLD of two or more letters, the character classes) accepts exactly the strings the regular expression matches. Both directions hold. |
| Syntax.SplitAddress | backend/email_verifier.py:122 | For a valid address, local part + "@" + domain rebuilds the lowered address. The local part holds no "@". |
| Syntax.MatchHasOneAt | backend/email_verifier.py:404 | A valid address holds exactly one "@", so splitting at the first "@" is unambiguous. |
| Syntax.ProbeAddressMatches | backend/email_verifier.py:940-941 | The catch-all probe address is a lowercase/digit token followed by "@" and the domain of a valid address. It is itself a valid address. |
| TtlCache.Get | backend/email_verifier.py:79-87 | A lookup hits exactly when the key is present and `now` is strictly before its expiry. A miss on an expired entry removes only that key. |
| TtlCache.Set | backend/email_verifier.py:89-91 | A store makes the key expire exactly 3600 seconds after `now`. No other key changes. |
| TtlCache.GetAfterSetHit | backend/email_verifier.py:79-91 | A stored value read back before the TTL ends is returned, and the cache is left as it was. |
| TtlCache.GetAfterSetExpired | backend/email_verifier.py:79-91 | A stored value read at or after its expiry is gone, and exactly that key is dropped. |
| TtlCache.SetRefreshes | backend/email_verifier.py:89-91 | A second store restarts the TTL. After the first store's expiry, the first store alone would miss but the second still hits. |
| TtlCache.SetIsolated | backend/email_verifier.py:79-91 | A store is invisible to lookups of every other key. |
| Smtp.SkipScan | backend/email_verifier.py:600-618 | The skip loops fire exactly when (a) the lowered domain contains, or ends in "." plus, one of the 14 blocked providers, or (b) one of the first two MX hosts contains one of the 8 transactional patterns. |
| Smtp.SubstringSkipsAcme | backend/email_verifier.py:603 | Because the test is a substring test, `acme.com` counts as a blocked provider. |
| Smtp.ReadGreeting | backend/email_verifier.py:647-671 | The greeting is valid exactly when a banner was read and its stripped text starts with "220". Valid gives code 220 and 10 points. Otherwise there is no code, an empty message and -10 points. |
| Smtp.ProbeHosts | backend/email_verifier.py:624-703 | The host loop: port 25 is marked open, a greeting is recorded and an MX is marked used exactly when some probed host had its port open. A new `mx_used` is one of the hosts. Points grow by at most 15 per host. TLS is marked only outside fast mode. |
| Smtp.Step | backend/email_verifier.py:630-700 | One host: an open port adds 10 points and makes that host `mx_used` with its greeting. A STARTTLS upgrade on a connected host outside fast mode adds 5 and marks TLS. A closed port changes nothing. |
| Smtp.Visited | backend/email_verifier.py:624-703 | The loop visits hosts in order and stops after the first whose port is open, whose session connected and whose QUIT returned. No host visited before the last one answers. Fewer than all hosts are visited only when the last visited one answers. |
| Smtp.SumHostPoints | backend/email_verifier.py:630-700 | The points of the visited hosts are in 0..15 per host, and at least 10 once one of them had its port open. |
| Smtp.ProbeHostsPoints | backend/email_verifier.py:624-703 | The loop's points are the starting points plus the sum over exactly the visited hosts. |
| Smtp.ProbeHostsTls | backend/email_verifier.py:624-703 | TLS is reported exactly when it was already set or some visited host upgraded outside fast mode. |
| Smtp.ProbeHostsLast | backend/email_verifier.py:624-703 | `mx_used` and the greeting come from the last port-open visited host. With no such host they are unchanged. |
| Smtp.ProbeHostsExact | backend/email_verifier.py:624-703 | The loop exactly: points, TLS, `mx_used` and greeting are as the three lemmas above say. |
| Smtp.FirstHostAnswers | backend/email_verifier.py:624-703 | When the first host answers, the result is that host alone: 10 points (15 with TLS outside fast mode), it is `mx_used`, and its greeting is kept. |
| Smtp.CheckConnection | backend/email_verifier.py:587-705 | No MX hosts gives the empty result. The test is skipped exactly when there are MX hosts and the skip lists fire. Port 25 is open exactly when not skipped and one of the first two hosts has its port open, and then there are at least 10 points. `mx_used` is one of those two hosts. Points stay in 0..30. No error is ever set. When not skipped, the result is the exact loop over the first two hosts: summed points of the visited hosts, the last port-open host as `mx_used`, TLS from a visited host. |
| Smtp.ClassifyReply | backend/email_verifier.py:767-797 | Accepted exactly for 250/251. Rejected exactly for codes 500..599. Hard failure exactly for 5xx, except a 550 without "user unknown"/"5.1.1". Soft failure exactly for 421/450/451. These classes are pairwise exclusive. 10 points exactly when accepted or soft failure. The error text is absent exactly when accepted or a plain 550. |
| Smtp.TimingPoints | backend/email_verifier.py:799-805 | Under 1 s gives -10. Over 15 s gives -5. 1..15 s inclusive gives +5. |
| Smtp.RcptHost | backend/email_verifier.py:728-733 | The RCPT host is `mx_used` when it is a non-empty name, else the first MX host when that is non-empty, else none. A chosen host is never empty. |
| Smtp.CheckRcpt | backend/email_verifier.py:707-817 | The probe is skipped exactly when the connection was skipped or port 25 was closed, and then it is the initial result. With no RCPT host it is the initial result. Any verdict needs a host and a classified reply. A classified reply carries its class, error, code, elapsed time and timing points. A client that cannot be built leaves "Connection error: " plus the detail. An aborted session leaves the fault text. A refused MAIL FROM leaves the initial result, or the QUIT fault text. A reply followed by a failing QUIT keeps code and time, takes no verdict and leaves the fault text. Without a reply, the response time stays 0 and there is no code. Never both accepted and rejected. A hard failure is always a rejection. |
| Smtp.RejectedWithoutError | backend/email_verifier.py:728-781 | A rejection without error text happens exactly when there is an RCPT host and the reply is a classified plain 550, i.e. one without "user unknown" or "5.1.1". |
| Smtp.DetectCatchAll | backend/email_verifier.py:938-960 | The test address is token@domain. It is skipped exactly when the fast connection test is skipped or closed. The domain is a catch-all exactly when the connection is not skipped, a port opens, there is an RCPT host (a non-empty `mx_used` or first MX host), and the random recipient is answered 250/251 with a clean QUIT. |
| Heuristics.ErrorText | backend/email_verifier.py:1035-1036 | A non-empty RCPT error text wins. Otherwise the connection error, or "", is used. The result is lowered. |
| Heuristics.TableClassify | backend/email_verifier.py:1038-1065 | The category is the first of the six phrase rules whose phrase occurs, with its points. It is "unknown" with 0 points exactly when none occurs. |
| Heuristics.ChainIsTable | backend/email_verifier.py:1039-1065 | The if/elif chain gives the same answer as the first-match table, for every text. |
| Heuristics.ClassifyErrorPattern | backend/email_verifier.py:1027-1067 | The classification is the first-match table applied to the selected error text. |
| Heuristics.RcptErrorTakesPrecedence | backend/email_verifier.py:1035 | With a non-empty RCPT error, the connection error has no influence. |
| Heuristics.FirstProvider | backend/email_verifier.py:1081-1082 | The first of the 12 provider rules, in insertion order, that matches the lowered domain by substring or "." suffix. None exactly when none matches. |
| Heuristics.ApplyProviderRules | backend/email_verifier.py:1069-1101 | A rule applies exactly when some provider matches. The score is lowered to that provider's cap exactly when RCPT was not accepted and the score exceeds the cap. The score never rises. Reliable rejection holds exactly for zoho.com with a rejection. |
| Heuristics.AgePoints | backend/email_verifier.py:558-568 | An age under 30 days gives -15. 30..359 days gives 0. 360 days or more gives +10. Unknown age gives 0. |
| Heuristics.MxRedundancyPoints | backend/email_verifier.py:1545-1568 | Negative exactly below two hosts. None gives -20, exactly one gives -3, 2..4 give 5, more than 4 give 3. |
| Heuristics.StrictnessBase | backend/email_verifier.py:1578-1600 | The raw sum of the greeting (2), MAIL FROM (3) and malformed-command (3) checks is in 0..8. It reaches 6 exactly when both 3-point checks pass, and it is 0 exactly when none passes. |
| Heuristics.StrictnessBand | backend/email_verifier.py:1602-1611 | A raw sum of 8 or more gives 10. 4..7 gives 0. Below 4 gives -5. |
| Heuristics.StrictnessPoints | backend/email_verifier.py:1570-1613 | As written, the step raises exactly when the RCPT error is None. When it does not raise, it agrees with the corrected step. |
| Heuristics.StrictnessPointsFixed | backend/email_verifier.py:1570-1613 | The points are one of 10, 0, -5. Strict (10) exactly when the MAIL FROM and malformed-command checks both pass and the greeting or anti-spam check does too. Loose (-5) exactly when neither 3-point check passes and not both 2-point checks do, or exactly one 3-point check passes and neither 2-point check does. Moderate (0) otherwise. |
| Heuristics.StrictBandUnreachable | backend/email_verifier.py:1584-1596 | No RCPT result passes both 3-point checks: a 500/501/502 reply leaves "Permanent SMTP error: 50x" (line 795), which never contains "mail". So the strict band is never reached. |
| Heuristics.AcceptedCrashesStrictness | backend/email_verifier.py:1596-1597 | An accepted 250 reply leaves the error None, so the as-written strictness step raises. |
| Heuristics.ServerBehaviorPoints | backend/email_verifier.py:1359-1392 | The three behaviour bonuses add up to between -2 and 10, so the clamp to -5..15 never changes them. |
| Heuristics.LatencyPoints | backend/email_verifier.py:1660-1688 | Under 0.5 s gives -10. 0.5..3 s gives 8. Over 3 up to 10 s gives 0. Over 10 s gives -5. |
| Heuristics.BannerPoints | backend/email_verifier.py:1942-1981 | A professional pattern in the lowered banner gives 8. Otherwise a suspicious pattern, or a stripped banner under 10 characters, gives -8. Otherwise 0. |
| Heuristics.MxBrand | backend/email_verifier.py:1846-1882 | Ten points and the first matching brand's name exactly when some brand substring occurs in the lowered host. Otherwise 0 and "custom". |
| Heuristics.PopularityPoints | backend/email_verifier.py:1394-1427 | 10 exactly when a popular MX pattern occurs in the lowered host, else 0. |
| Heuristics.BlocklistPoints | backend/email_verifier.py:1429-1458 | As written, the step raises exactly when the RCPT result is a rejection with error None. Otherwise it agrees with the corrected step. |
| Heuristics.BlocklistPointsFixed | backend/email_verifier.py:1429-1458 | A rejection with "user unknown" in its error, or "550" in its code, gives 5, and any other rejection 0. Accepted gives 0. Soft failure gives 3. With no connection error, the rest gives 0. |
| Heuristics.BlocklistCrashIsInstantReject | backend/email_verifier.py:1437-1441 | Every reply that makes the as-written step raise would have scored 5 (instant reject) once the error is read as "". |
| Heuristics.PlainRejectCrashesBlocklist | backend/email_verifier.py:1437-1439 | A "550 Rejected" reply is a rejection without error text. The as-written step raises on it, and the corrected one gives 5. |
| Heuristics.RolePoints | backend/email_verifier.py:1792-1844 | With MX hosts: 6 exactly when all four role addresses get 250/251, -6 exactly when none does, else 0. Without MX hosts: 0. |
| Heuristics.TcpStabilityPoints | backend/email_verifier.py:2061-2101 | 5 exactly when all three attempts connect. -5 exactly when none does, since `3 // 2` is 1. Otherwise 0. |
| Heuristics.QuitPoints | backend/email_verifier.py:2027-2059 | A 221 reply to QUIT gives 4. Another code or a raised QUIT gives -4. A failed session gives 0. |
| Heuristics.RetryPoints | backend/email_verifier.py:1103-1160 | The retry confirms the address (20 points) exactly when one of the first two attempts gets 250/251. |
| Scoring.ApplyStep | backend/email_verifier.py:168-169 | An added signal shifts the total by its points. The hard-failure cap `min(score, 10)` never raises the total and yields either the total or the cap. |
| Scoring.RunAppend | backend/email_verifier.py:104-358 | Scoring a concatenation of steps is scoring the second part from the first part's total. |
| Scoring.RunWithoutCaps | backend/email_verifier.py:104-358 | Without caps, the final total is the start plus the sum of all added points. |
| Scoring.RunMonotone | backend/email_verifier.py:168-203 | Adds and caps are monotone. A pointwise larger step list from a larger start never ends lower. |
| Scoring.GatedDominated | backend/email_verifier.py:146-358 | Signals with the same gates and pointwise larger deltas produce a dominating step list. |
| Scoring.Band | backend/email_verifier.py:367-386 | The five bands are exactly score ≥ 90, 70..89, 50..69, 20..49, and < 20. |
| Scoring.BandRankCounts | backend/email_verifier.py:367-386 | The band's rank is the number of thresholds (20, 50, 70, 90) the score reaches. |
| Scoring.BandMonotone | backend/email_verifier.py:367-386 | A higher score never gets a lower band. |
| Scoring.Truncate | backend/email_verifier.py:394 | `int(min_score)` truncates toward zero. |
| Scoring.ApplyOverride | backend/email_verifier.py:389-397 | An override only raises the score, to `int(min_score)` at most, and recomputes confidence. A forced status replaces the band; forcing a band's own name gives that band. Reason and risky flag are kept. |
| Scoring.StatusOfName | backend/email_verifier.py:371-397 | A forced status string reads back as the same string. It is one of the five bands exactly when it is one of "valid", "likely_valid", "uncertain", "likely_invalid", "invalid". |
| Scoring.ForcedBandNameIsBand | backend/email_verifier.py:371-397 | Forcing the status string of a band gives that same band. |
| Scoring.Finish | backend/email_verifier.py:360-397 | Without an override, the score is the total clamped to 0..100, confidence is score / 100, and the status is its band. With one, the score is never below the clamped total. |
| Scoring.ProviderStepAgrees | backend/email_verifier.py:199-203 | The provider signal in the fold changes the running total exactly as `_apply_provider_rules` adjusts it. |
| Scoring.Probe | backend/email_verifier.py:122-351 | The session runs the connection test on the lowered domain and the RCPT probe on that connection. Catch-all is detected only outside fast mode. |
| Scoring.Scored | backend/email_verifier.py:146-397 | For a domain without an override: score in 0..100, confidence = score / 100, status = band, reason = band reason. Risky exactly when catch-all. |
| Scoring.VerifyEmailFixed | backend/email_verifier.py:93-399 | An invalid syntax gives the fixed invalid report. A missing domain gives the DNS points with status invalid. Otherwise, without an override, the score is in 0..100 with its band. |
| Scoring.ScoreSession | backend/email_verifier.py:146-397 | On one probe session, the as-written tail raises exactly when the blocklist step sees a rejection without error text, or when, outside fast mode with a non-empty `mx_used`, the strictness step sees no error text. Otherwise it returns the report scored with the corrected steps. |
| Scoring.VerifyEmail | backend/email_verifier.py:93-399 | As written, the call raises exactly for a valid address with an existing domain whose probes make the blocklist or strictness step raise. Otherwise it returns the corrected report. |
| Scoring.LayoutMonotone | backend/email_verifier.py:146-358 | Raising any abstract probe's points gives a dominating signal list, under the same gates. |
| Scoring.ScoredMonotone | backend/email_verifier.py:146-386 | Raising any abstract probe's points never lowers the final score of a session. |
| Scoring.ScoreMonotone | backend/email_verifier.py:146-386 | For a valid address with an existing domain and no override, raising any abstract probe's points never lowers the score or the status band. |
| Jobs.AppendError | backend/job_manager.py:67-70 | Appending keeps the last ten entries of the log plus the detail, in order. The detail is the newest entry. |
| Jobs.AppendErrorsKeepsRecent | backend/job_manager.py:67-70 | Logging several details one at a time keeps exactly the last ten of the old log followed by the details. |
| Jobs.Put | backend/job_manager.py:38-39 | Storing one record changes only that id and keeps the registry invariant. |
| Jobs.CreateJob | backend/job_manager.py:19-40 | A pending job is filed under the fresh id with zero counters, no timestamps except creation, and an empty log. Its metadata is the given map or empty. All other jobs are kept, and so is the invariant. |
| Jobs.CreateFreshGrows | backend/job_manager.py:19-40 | A fresh id adds exactly one job. |
| Jobs.StartJob | backend/job_manager.py:42-48 | A known job becomes running with its start time. An unknown id changes nothing. |
| Jobs.CountRow | backend/job_manager.py:62-72 | One more processed row, counted as a success or an error. The log changes only for a failed row with a non-empty detail. The message changes only to a non-empty one. The counters keep adding up. Id, type, status, totals, timestamps, output path and name, and metadata are unchanged. |
| Jobs.Increment | backend/job_manager.py:50-72 | A known job gets the row update. An unknown id changes nothing. Other jobs and the invariant are kept. |
| Jobs.CompleteJob | backend/job_manager.py:74-82 | From any status, a known job becomes completed with its finish time and output location. |
| Jobs.MarkFailed | backend/job_manager.py:89-93 | The failed record: status failed, finished now, the detail as message and as the newest log entry. Counters, id, type, creation and start times, output path and name, and metadata are unchanged. The invariant is kept. |
| Jobs.FailJob | backend/job_manager.py:84-93 | From any status, a known job gets the failed record, even with an empty detail. An unknown id changes nothing. Other jobs and the invariant are kept. |
| Jobs.GetJob | backend/job_manager.py:95-101 | A record is returned exactly for a known id, and it equals the stored one. |

## Left out

- Network, DNS, WHOIS and socket I/O: every outcome is an input record (`HostProbe`, `RcptSession`, role replies, QUIT outcome, TCP attempts, retry attempts). Timeouts and exceptions appear only as the fault cases of those records.
- `_check_dns_health`: modelled only as its result `DnsHealth`. Whether the domain exists, the MX host list and the points are inputs.
- Network-only probes: their points are abstract integers in `Others`. This covers security reputation, web presence, provider fingerprint, TLS certificate, mail ports, DNSSEC, PTR, IP reputation, MX consistency, TLS policy, MAIL FROM health, load balancer, VRFY lite, greylist depth and domain blacklists.
- Greylist retry waiting: the `time.sleep` between retries is not modelled.
- Domain age: the creation date is read from the network, so it is given as an age in days.
- `round(…)` on timings and ages, and floating point in general: times are exact `real` seconds.
- `score_details`: the per-signal detail dictionaries are left out; the report keeps only status, score, confidence, reason and the risky flag.
- The internet-presence check: `internet_check_module` is not part of this model. Its exceptions are caught and it adds no points.
- Configuration: environment variables, the sender domain and logging.
- Locking: each cache and job operation is one atomic update of a value.
- The legacy wrappers `calculate_confidence`, `check_mx_records`, `smtp_handshake`, `check_deliverability` and `detect_catch_all`: they are not part of the scoring path.
- Character handling: lowering is ASCII-only, so non-ASCII letters that Python folds (KELVIN SIGN to `k`, say) are left as they are; and a reply message is taken as the text of its `str()`.
- The catch-all token and the job id are inputs: `random.choices` and `uuid4` are not modelled.
- `DOMAIN_CONFIDENCE_OVERRIDES` is a parameter. An override whose `min_score` is a bool is not modelled.
- Scoring.WellFormed: the scoring entry points require at least two host probes for each connection test, four role replies, three TCP attempts and a 15-character token. These are the shapes the source's loops produce, not checks the source makes.
- Heuristics.ServerBehaviorPoints: the contract states the sum and its range, because the clamp never binds.
- Jobs.GetJob: a shallow copy is the same value here, so the guard against later mutation of the returned record is not modelled.

## Findings

| source | as written | input that shows it | evidently intended | confidence | as-written member | corrected member |
|---|---|---|---|---|---|---|
| backend/email_verifier.py:1437-1439 | `smtp_rcpt.get("error", "").lower()` on a rejected RCPT result. A plain 550 rejection stores `error: None`, so `.get` returns None and `.lower()` raises AttributeError. `verify_email` does not catch it. | RCPT TO answered `550 Rejected` (no "user unknown", no "5.1.1") on an open port 25 | Read a missing error as "" and score the instant reject (code 550 gives 5 points) | not executed | Heuristics.BlocklistPoints, Heuristics.PlainRejectCrashesBlocklist | Heuristics.BlocklistPointsFixed, Heuristics.BlocklistCrashIsInstantReject |
| backend/email_verifier.py:1596-1597 | `smtp_rcpt.get("error", "").lower()` in the strictness step. Outside fast mode with a non-empty `mx_used`, every RCPT result with `error: None` raises. That covers accepted 250/251, plain 550, and a refused MAIL FROM with a clean QUIT. | Non-fast verification of an address whose server answers RCPT TO with `250 OK` | Read a missing error as "" and score the strictness band | not executed | Heuristics.StrictnessPoints, Heuristics.AcceptedCrashesStrictness | Heuristics.StrictnessPointsFixed |
| backend/email_verifier.py:93-399 | The two raises above escape `verify_email`, so the whole verification fails instead of returning a report | Either input above, with a valid address whose domain exists | A report scored with the corrected steps | not executed | Scoring.VerifyEmail, Scoring.ScoreSession | Scoring.VerifyEmailFixed |
