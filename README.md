# ssl-expiry-check, modelled in Dafny

A model of the decision logic of the ssl-expiry-check probe: a one-shot
check that dials a TLS endpoint, looks at the leaf certificate's validity
window and reports to its health-checking harness whether the certificate is
expired, about to expire, or healthy. Three parts of the program are
modelled:

- **Certificate classification** (`SslUtil`, pkg/sslutil/sslUtil.go):
  `CertExpiry` turns the dial's outcome, the current instant and a days
  string into the pair (expired, expire-warning) and an error. Instants and
  durations are integer nanoseconds, as Go's `time.Duration` is.
- **Result mapping and the race** (`Orchestrator`, cmd/ssl-expiry-check/checker.go):
  `NewChecker`, the precedence of `doChecks` (dial error, then expired, then
  expiring), and `Run`, which turns the first of {cancellation, time limit,
  completion} into exactly one report and decides whether the context's
  `cancel()` is called. `Run` is a method of the class `CheckRun`, which
  holds the `cancelCalled` flag and the run's terminal state.
- **Configuration** (`Config`, cmd/ssl-expiry-check/checkConfig.go):
  `parseConfig` as a function of the environment (a map), the result of
  the deadline lookup, and the current instant.

Two library pieces the probe depends on are modelled as well: Go's
`strconv.ParseUint(s, 10, 64)` and `strconv.ParseBool` (`Strconv`), and the
text of Go error values, with `strconv.Quote` and its inverse (`Base`).

Files: `base.dfy`, `strconv.dfy`, `sslutil.dfy`, `config.dfy`, `checker.dfy`.

## Model

| member | source | states |
|---|---|---|
| Base.TruncDiv | pkg/sslutil/sslUtil.go:53 | Go's integer division truncates toward zero: the quotient is bracketed by the dividend from below for non-negative and from above for negative dividends |
| Base.Text | cmd/ssl-expiry-check/checker.go:58 | `err.Error()`: a plain error is its message; a `%w`-wrapped error is its context, ": ", then the cause's text |
| Base.QuoteRoundTrip | cmd/ssl-expiry-check/checkConfig.go:64 | the quoted input inside a strconv NumError message is recovered exactly by unquoting it |
| Strconv.ParseUint64 | cmd/ssl-expiry-check/checkConfig.go:62-65 | accepted iff a non-empty string of decimal digits below 2^64, and then the value is the number it denotes; otherwise a ParseUint NumError whose kind is range when the leading digits already overflow and syntax else, with value 2^64-1 or 0 beside it |
| Strconv.ScanDecimal | pkg/sslutil/sslUtil.go:49 | the left-to-right digit loop of ParseUint meets the same specification, given that the prefix scanned so far denotes the accumulator |
| Strconv.PrefixOverflow | cmd/ssl-expiry-check/checkConfig.go:62 | once a run of leading digits exceeds 2^64-1 the string is rejected with a range error |
| Strconv.ParseFormatRoundTrip | cmd/ssl-expiry-check/checkConfig.go:62 | every number below 2^64 written in decimal parses back to itself without error |
| Strconv.ParseBool | cmd/ssl-expiry-check/checkConfig.go:72-75 | accepted iff one of the twelve spellings 1 t T TRUE true True 0 f F FALSE false False; true iff one of the first six; otherwise a ParseBool syntax error and false |
| SslUtil.Threshold | pkg/sslutil/sslUtil.go:48-50 | the threshold is the parsed days value when the string is valid, 0 when it is malformed, and 2^64-1 when its digits overflow, since the parse error is discarded |
| SslUtil.DaysUntilInvalid | pkg/sslutil/sslUtil.go:52-53 | up to notAfter the count is the number of whole days left (d days <= remaining time < d + 1 days); less than an hour past notAfter it is 0; an hour or more past it is whatever the platform's uint conversion gives, divided by 24 |
| SslUtil.CertExpiry | pkg/sslutil/sslUtil.go:20-73 | a failed dial gives (false, false, its error); a connection gives a nil error, expired iff the instant is outside the leaf's window, and warning iff threshold >= days until invalid |
| SslUtil.WarningIffWithinThreshold | pkg/sslutil/sslUtil.go:62-66 | before notAfter the warning fires iff less than threshold + 1 whole days remain |
| SslUtil.WindowBoundaries | pkg/sslutil/sslUtil.go:56-60 | an instant equal to notBefore or notAfter is not expired; one nanosecond outside either end is |
| SslUtil.WarningAtEqualThreshold | pkg/sslutil/sslUtil.go:63-66 | a threshold equal to the remaining whole days warns, and one less does not |
| SslUtil.DayCountExamples | pkg/sslutil/sslUtil.go:53 | 47h59m left counts as 1 day, 23h59m as 0, exactly 24h as 1 |
| SslUtil.MalformedDaysMeansZero | pkg/sslutil/sslUtil.go:49-50 | a malformed days string is read as 0, so the warning fires iff no whole day remains |
| SslUtil.OnlyLeafMatters | pkg/sslutil/sslUtil.go:44-57 | only the first certificate of the peer chain influences the classification |
| SslUtil.FlagsIndependent | pkg/sslutil/sslUtil.go:56-66 | the two flags are independent: (valid, warning), (expired, warning) and (expired, no warning) all occur |
| SslUtil.ClassificationExamples | pkg/sslutil/sslUtil.go:46-66 | ten days left with threshold 30 warns without expiry; a day past notAfter is expired for any threshold; a hundred days left with threshold 5 is healthy |
| Config.Getenv | cmd/ssl-expiry-check/checkConfig.go:46 | a variable that is not set reads as the empty string |
| Config.Validate | cmd/ssl-expiry-check/checkConfig.go:45-85 | a configuration is produced iff all six checks pass, and then it holds the three strings as read, INSECURE's truth value and the given time limit |
| Config.TimeoutAsWritten | cmd/ssl-expiry-check/checkConfig.go:34-42 | the time limit plus the 5-second margin plus now is the looked-up deadline |
| Config.ParseConfig | cmd/ssl-expiry-check/checkConfig.go:33-86 | succeeds iff every check passes, and the stored time limit is deadline - (now + 5s) |
| Config.FirstFailureWins | cmd/ssl-expiry-check/checkConfig.go:46-75 | in the order DOMAIN_NAME set, PORT set, DAYS set, DAYS parses, INSECURE set, INSECURE parses, the first failing check alone decides the error |
| Config.AcceptedFields | cmd/ssl-expiry-check/checkConfig.go:77-85 | on success DomainName, Port and DaysToExpire equal the environment strings exactly, DAYS is a valid 64-bit decimal, and InsecureSkipVerify is the boolean INSECURE spells |
| Config.AcceptedIffParsable | cmd/ssl-expiry-check/checkConfig.go:58-75 | with domain and port set, parsing succeeds iff DAYS parses as an unsigned 64-bit decimal and INSECURE as a Go boolean |
| Config.EmptyIsUnset | cmd/ssl-expiry-check/checkConfig.go:46-71 | a variable set to the empty string gives the same result as a missing one |
| Config.TimeoutIgnoresLookupFailure | cmd/ssl-expiry-check/checkConfig.go:35-42 | whether the deadline lookup failed does not change the result: the 20-second default never survives |
| Config.FailedLookupDiscardsDefault | cmd/ssl-expiry-check/checkConfig.go:38-42 | a failed lookup returning Go's zero time yields a negative time limit rather than the 20-second default |
| Config.TimeoutWithFallback | cmd/ssl-expiry-check/checkConfig.go:34-42 | corrected: 20 seconds when the lookup failed, deadline - (now + 5s) otherwise |
| Config.ParseConfigWithFallback | cmd/ssl-expiry-check/checkConfig.go:33-86 | corrected: the same checks and outcome as parseConfig, with a 20-second limit after a failed lookup and the same result as parseConfig after a successful one |
| Config.FallbackChangesOnlyTimeout | cmd/ssl-expiry-check/checkConfig.go:35-42 | the corrected parse differs from the written one only in the time limit |
| Orchestrator.NewChecker | cmd/ssl-expiry-check/checker.go:26-36 | the checker holds the five settings of the configuration unchanged |
| Orchestrator.NewCheckerKeepsConfig | cmd/ssl-expiry-check/checker.go:27-36 | the configuration is recovered from the checker built from it |
| Orchestrator.Verdict | cmd/ssl-expiry-check/checker.go:74-90 | an inspector error is returned unchanged whatever the flags; otherwise expired gives the expired message whatever the warning; otherwise the warning gives the expiring message with the raw days string; nil iff no error and both flags false |
| Orchestrator.DoChecks | cmd/ssl-expiry-check/checker.go:72-91 | a failed dial's error is returned as is; a leaf outside its window gives the expired message; inside it, the expiring message when threshold >= days until invalid and nil otherwise |
| Orchestrator.HealthyIff | cmd/ssl-expiry-check/checker.go:72-91 | doChecks returns nil iff the dial succeeded, the leaf is in its window and at least threshold + 1 whole days remain |
| Orchestrator.ExpiredAndExpiringDiffer | cmd/ssl-expiry-check/checker.go:81-88 | the expired and the expiring messages differ for every domain and days string |
| Orchestrator.TimerAt | cmd/ssl-expiry-check/checker.go:42 | the timer fires after the time limit, and at once when the limit is not positive |
| Orchestrator.SomeEventWins | cmd/ssl-expiry-check/checker.go:47-61 | some event is always first ready, so the wait always ends |
| Orchestrator.SlowInspectionTimesOut | cmd/ssl-expiry-check/checker.go:51-54 | when the inspection and the cancellation both come after the time limit, only the timeout can win |
| Orchestrator.EarlyInterruptWins | cmd/ssl-expiry-check/checker.go:48-50 | a cancellation strictly before the timer and the completion is the only possible winner |
| Orchestrator.Outcome | cmd/ssl-expiry-check/checker.go:47-61 | cancellation reports the interrupt message, the timer the fixed timeout message, completion success iff doChecks returned nil and otherwise the error's text |
| Orchestrator.SuccessIff | cmd/ssl-expiry-check/checker.go:55-60 | success is reported iff the inspection wins, the dial succeeded, the leaf is in its window and more than the threshold in whole days remains |
| Orchestrator.DialFailureReported | cmd/ssl-expiry-check/checker.go:55-58 | a dial failure that wins the race is reported with the dial error's own text |
| Orchestrator.SlowInspectionReportsTimeout | cmd/ssl-expiry-check/checker.go:51-54 | an inspection slower than the time limit, with no earlier cancellation, always ends in the timeout report |
| Orchestrator.CheckRun.Run | cmd/ssl-expiry-check/checker.go:39-62 | one report, equal to the outcome of the winning event, moves the run to its terminal state; cancel() is called iff the winner is not the cancellation |
| Orchestrator.ConfiguredThresholdIsExact | cmd/ssl-expiry-check/checkConfig.go:62-65 | a DAYS string that passed configuration, as written or with the fallback, reaches CertExpiry as its exact value, never as the malformed-string 0 |
| Orchestrator.FailedLookupTimerAt20s | cmd/ssl-expiry-check/checkConfig.go:35-42 | with the corrected parse, a failed deadline lookup gives the run a 20-second timer |

## Findings

| source | as written | input that shows it | evidently intended | confidence | as-written member | corrected member |
|---|---|---|---|---|---|---|
| cmd/ssl-expiry-check/checkConfig.go:35-42 | the time limit is set to deadline - (now + 5s) even when the deadline lookup returned an error, so the 20-second default assigned first is never used | a failed lookup that returns Go's zero time, with now at or after 1970: the limit is negative, `time.After` fires at once and `Run` can only report the timeout | keep the 20-second default when the lookup fails, as the comment "when available" and the default constant say | medium; not executed | Config.FailedLookupDiscardsDefault | Config.ParseConfigWithFallback |

The program's own comments state the intent: the constant at
cmd/ssl-expiry-check/checkConfig.go:14-15 is described as the fallback
timeout, and line 37 overrides it with the deadline only "when available".
The model follows the code in `Config.ParseConfig` and gives the intended
behaviour separately in `Config.ParseConfigWithFallback`.

## Left out

- The TLS dial, the handshake, the 10-second dial timeout and closing the connection (pkg/sslutil/sslUtil.go:28-42) are network I/O: the model takes the dial's outcome (an error, or the peer certificate chain) as an input.
- `SSLHandshakeWithCertPool` (pkg/sslutil/sslUtil.go:76-101) is network I/O over crypto/tls and is not part of this model.
- The goroutine, the channel and the `select` (cmd/ssl-expiry-check/checker.go:41-47, 64-69) are left out: the event that wins is an input, restricted by `MayWin` to an event ready no later than the others.
- `Duration.Hours()` works in floating point; the model truncates the integer nanosecond count, which can be one hour larger within a few tens of nanoseconds below an hour boundary once about 171 days (4096 hours) or more remain (the window widens with the time left, to hundreds of nanoseconds near the ±292-year limit of a Duration).
- `time.Sub` saturates at about ±292 years and durations are 64-bit; the model's integers are unbounded.
- SslUtil.DaysUntilInvalid: converting an hour count of -1 or less to `uint` is implementation-dependent in Go, so that value is the parameter `negativeCast` and nothing is stated about it.
- `uint` is taken to be 64 bits wide, so the conversion of the parsed days to `uint` (pkg/sslutil/sslUtil.go:50) changes nothing.
- An empty peer chain on a successful connection (where `cert[0]` would panic) is excluded by the precondition `WellFormed`, since a TLS client handshake always delivers the leaf.
- `checkclient.GetDeadline`, `os.Getenv` and `time.Now` are inputs (`DeadlineLookup`, the environment map, `now`); `reportFailure` and `reportSuccess` are defined outside the modelled files; the model returns the report passed to them (`Report`) instead of their error value.
- Logging through logrus, including the healthy-status condition at pkg/sslutil/sslUtil.go:69, has no effect on results and is left out.
- Base.QuoteRoundTrip: Go's `strconv.Quote` also escapes non-printable characters above ASCII (as \u or \U) and invalid UTF-8; the model prints every non-ASCII character as it is.
