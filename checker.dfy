/** The orchestration of cmd/ssl-expiry-check: a Checker built from the
    configuration runs the inspection in the background and waits for the
    first of three events (the context is cancelled, the time limit
    elapses, the inspection finishes); that event alone decides the single
    report, and whether the context's cancel function is called. The
    goroutine and the select are not modelled: the event that wins is an
    input, constrained by the instants at which each event becomes ready. */
module Orchestrator {
  import opened Base
  import opened Strconv
  import opened SslUtil
  import opened Config

  datatype Checker = Checker(
    domainName: string,
    portNum: string,
    daysToExpire: string,
    insecureSkipVerify: bool,
    checkTimeout: int)

  /** NewChecker copies the five settings. */
  function NewChecker(cfg: CheckConfig): (c: Checker)
    ensures c.domainName == cfg.DomainName && c.portNum == cfg.Port
    ensures c.daysToExpire == cfg.DaysToExpire && c.insecureSkipVerify == cfg.InsecureSkipVerify
    ensures c.checkTimeout == cfg.CheckTimeout
  {
    Checker(cfg.DomainName, cfg.Port, cfg.DaysToExpire, cfg.InsecureSkipVerify, cfg.CheckTimeout)
  }

  /** The configuration can be read back from the checker: nothing is lost. */
  function ConfigOf(c: Checker): CheckConfig {
    CheckConfig(c.domainName, c.portNum, c.daysToExpire, c.insecureSkipVerify, c.checkTimeout)
  }

  lemma NewCheckerKeepsConfig(cfg: CheckConfig)
    ensures ConfigOf(NewChecker(cfg)) == cfg
  {
  }

  // ---------------------------------------------------------------------
  // doChecks

  function ExpiredError(domain: string): Error {
    Plain("Certificate for domain " + domain + " is expired")
  }

  function ExpiringError(domain: string, days: string): Error {
    Plain("Certificate for domain " + domain + " is expiring in less than " + days + " days")
  }

  /** The precedence doChecks applies to CertExpiry's three results: an
      error is passed on as it is, whatever the flags; then expired; then
      expiring; otherwise no error. */
  function Verdict(c: Checker, i: Inspection): (r: Option<Error>)
    ensures i.err.Some? ==> r == i.err
    ensures i.err.None? && i.expired ==> r == Some(ExpiredError(c.domainName))
    ensures i.err.None? && !i.expired && i.expireWarning ==> r == Some(ExpiringError(c.domainName, c.daysToExpire))
    ensures r.None? <==> i == Inspection(false, false, None)
  {
    if i.err.Some? then i.err
    else if i.expired then Some(ExpiredError(c.domainName))
    else if i.expireWarning then Some(ExpiringError(c.domainName, c.daysToExpire))
    else None
  }

  /** doChecks: inspect the certificate behind the dial and map the result. */
  function DoChecks(c: Checker, dial: DialOutcome, now: int, negativeCast: nat): (r: Option<Error>)
    requires WellFormed(dial)
    ensures dial.DialFailed? ==> r == Some(dial.cause)
    ensures dial.Connected? && !InWindow(dial.peerCertificates[0], now) ==>
      r == Some(ExpiredError(c.domainName))
    ensures dial.Connected? && InWindow(dial.peerCertificates[0], now) ==>
      r == if Threshold(c.daysToExpire) >= DaysUntilInvalid(dial.peerCertificates[0].notAfter, now, negativeCast)
           then Some(ExpiringError(c.domainName, c.daysToExpire)) else None
  {
    Verdict(c, CertExpiry(c.daysToExpire, dial, now, negativeCast))
  }

  /** doChecks returns nil exactly when the dial succeeded, the leaf is in
      its window, and at least threshold + 1 whole days remain. */
  lemma HealthyIff(c: Checker, dial: DialOutcome, now: int, negativeCast: nat)
    requires WellFormed(dial)
    ensures DoChecks(c, dial, now, negativeCast).None? <==>
      && dial.Connected?
      && InWindow(dial.peerCertificates[0], now)
      && dial.peerCertificates[0].notAfter - now >= (Threshold(c.daysToExpire) + 1) * NanosPerDay
  {
  }

  /** The expired and the expiring messages never coincide, whatever the
      domain and the days string. */
  lemma ExpiredAndExpiringDiffer(domain: string, days: string)
    ensures Text(ExpiredError(domain)) != Text(ExpiringError(domain, days))
  {
  }

  // ---------------------------------------------------------------------
  // Run: the three-way select

  /** The events Run waits for. */
  datatype Event = Interrupt | Timeout | Done

  /** When each event becomes ready, in nanoseconds after Run started: the
      context's cancellation and the inspection's completion may never
      happen; the timer of time.After fires after the time limit, at once
      when the limit is not positive. */
  datatype Arrivals = Arrivals(interruptAt: Option<nat>, doneAt: Option<nat>)

  function TimerAt(c: Checker): (t: nat)
    ensures c.checkTimeout <= 0 ==> t == 0
    ensures c.checkTimeout > 0 ==> t == c.checkTimeout
  {
    if c.checkTimeout <= 0 then 0 else c.checkTimeout
  }

  function ReadyAt(e: Event, c: Checker, a: Arrivals): Option<nat> {
    match e
    case Interrupt => a.interruptAt
    case Timeout => Some(TimerAt(c))
    case Done => a.doneAt
  }

  /** `e` is ready and no other event was ready strictly before it; select
      picks any one of the events ready at the same instant. */
  predicate MayWin(e: Event, c: Checker, a: Arrivals) {
    && ReadyAt(e, c, a).Some?
    && forall other: Event :: ReadyAt(other, c, a).Some? ==> ReadyAt(e, c, a).value <= ReadyAt(other, c, a).value
  }

  /** The timer always fires, so the select never blocks for good. */
  lemma SomeEventWins(c: Checker, a: Arrivals)
    ensures exists e: Event :: MayWin(e, c, a)
  {
    var t := TimerAt(c);
    if a.interruptAt.Some? && a.interruptAt.value <= t && (a.doneAt.None? || a.interruptAt.value <= a.doneAt.value) {
      assert MayWin(Interrupt, c, a);
    } else if a.doneAt.Some? && a.doneAt.value <= t {
      assert MayWin(Done, c, a);
    } else {
      assert MayWin(Timeout, c, a);
    }
  }

  /** An inspection that finishes after the time limit, with no earlier
      cancellation, can only end in the timeout. */
  lemma SlowInspectionTimesOut(c: Checker, a: Arrivals, e: Event)
    requires a.doneAt.None? || a.doneAt.value > TimerAt(c)
    requires a.interruptAt.None? || a.interruptAt.value > TimerAt(c)
    ensures MayWin(e, c, a) <==> e == Timeout
  {
    assert MayWin(e, c, a) ==> ReadyAt(e, c, a).value <= ReadyAt(Timeout, c, a).value;
  }

  /** A cancellation that comes strictly before both other events wins. */
  lemma EarlyInterruptWins(c: Checker, a: Arrivals, e: Event)
    requires a.interruptAt.Some? && a.interruptAt.value < TimerAt(c)
    requires a.doneAt.None? || a.interruptAt.value < a.doneAt.value
    ensures MayWin(e, c, a) <==> e == Interrupt
  {
    assert MayWin(e, c, a) ==> ReadyAt(e, c, a).value <= ReadyAt(Interrupt, c, a).value;
  }

  /** The single report Run hands to the harness. */
  datatype Report = Success | Failure(reason: string)

  const InterruptMessage: string := "Cancelling check and shutting down due to interrupt."
  const TimeoutMessage: string := "Failed to complete SSL expiry check in time. Timeout was reached."

  /** The report for the event that won: the interrupt and timeout messages,
      or the inspection's error text, or success. */
  function Outcome(c: Checker, e: Event, dial: DialOutcome, now: int, negativeCast: nat): (r: Report)
    requires WellFormed(dial)
    ensures e == Interrupt ==> r == Failure(InterruptMessage)
    ensures e == Timeout ==> r == Failure(TimeoutMessage)
    ensures e == Done ==> (r == Success <==> DoChecks(c, dial, now, negativeCast).None?)
    ensures e == Done && DoChecks(c, dial, now, negativeCast).Some? ==>
      r == Failure(Text(DoChecks(c, dial, now, negativeCast).value))
  {
    match e
    case Interrupt => Failure(InterruptMessage)
    case Timeout => Failure(TimeoutMessage)
    case Done =>
      var err := DoChecks(c, dial, now, negativeCast);
      if err.Some? then Failure(Text(err.value)) else Success
  }

  /** Success is reported only when the inspection wins and the certificate
      is in its window with more than the threshold left. */
  lemma SuccessIff(c: Checker, e: Event, dial: DialOutcome, now: int, negativeCast: nat)
    requires WellFormed(dial)
    ensures Outcome(c, e, dial, now, negativeCast) == Success <==>
      && e == Done
      && dial.Connected?
      && InWindow(dial.peerCertificates[0], now)
      && dial.peerCertificates[0].notAfter - now >= (Threshold(c.daysToExpire) + 1) * NanosPerDay
  {
  }

  /** A failed dial that wins the race is reported with its own text. */
  lemma DialFailureReported(c: Checker, cause: Error, now: int, negativeCast: nat)
    ensures Outcome(c, Done, DialFailed(cause), now, negativeCast) == Failure(Text(cause))
  {
  }

  /** When the inspection is slower than the time limit and nothing cancels
      first, every possible report is the timeout failure. */
  lemma SlowInspectionReportsTimeout(c: Checker, a: Arrivals, e: Event, dial: DialOutcome, now: int, negativeCast: nat)
    requires WellFormed(dial) && MayWin(e, c, a)
    requires a.doneAt.None? || a.doneAt.value > TimerAt(c)
    requires a.interruptAt.None? || a.interruptAt.value > TimerAt(c)
    ensures Outcome(c, e, dial, now, negativeCast) == Failure(TimeoutMessage)
  {
    SlowInspectionTimesOut(c, a, e);
  }

  /** The state of one run: waiting in the select, or done with its one
      report. There is no way back from Reported. */
  datatype RunState = Waiting | Reported(report: Report)

  /** One invocation of Checker.Run: the context it may cancel and the
      report it sends. */
  class CheckRun {
    var cancelCalled: bool
    var state: RunState

    constructor ()
      ensures !cancelCalled && state == Waiting
    {
      cancelCalled := false;
      state := Waiting;
    }

    /** Wait for the first event, report once, and cancel the context unless
        the context was what ended the wait. */
    method Run(c: Checker, a: Arrivals, winner: Event, dial: DialOutcome, now: int, negativeCast: nat)
      returns (r: Report)
      requires WellFormed(dial)
      requires state == Waiting && MayWin(winner, c, a)
      modifies this
      ensures state == Reported(r)
      ensures r == Outcome(c, winner, dial, now, negativeCast)
      ensures cancelCalled == (old(cancelCalled) || winner != Interrupt)
    {
      match winner {
      case Interrupt =>
        r := Failure(InterruptMessage);
      case Timeout =>
        cancelCalled := true;
        r := Failure(TimeoutMessage);
      case Done =>
        var err := DoChecks(c, dial, now, negativeCast);
        cancelCalled := true;
        if err.Some? {
          r := Failure(Text(err.value));
        } else {
          r := Success;
        }
      }
      state := Reported(r);
    }
  }

  // ---------------------------------------------------------------------
  // From the environment to the report

  /** A configuration that parsed, as written or with the fallback, hands
      CertExpiry the exact number of days: the malformed-means-zero reading
      never applies to it. */
  lemma ConfiguredThresholdIsExact(env: map<string, string>, lookup: DeadlineLookup, now: int)
    requires ParseConfig(env, lookup, now).Configured?
    ensures var c := NewChecker(ParseConfig(env, lookup, now).cfg);
      IsUint64Decimal(c.daysToExpire) && Threshold(c.daysToExpire) == DecimalValue(env["DAYS"])
    ensures var c := NewChecker(ParseConfigWithFallback(env, lookup, now).cfg);
      IsUint64Decimal(c.daysToExpire) && Threshold(c.daysToExpire) == DecimalValue(env["DAYS"])
  {
  }

  /** With the fallback, a failed deadline lookup gives the run a 20-second
      timer. */
  lemma FailedLookupTimerAt20s(env: map<string, string>, deadline: int, now: int)
    requires ParseConfigWithFallback(env, DeadlineLookup(deadline, true), now).Configured?
    ensures TimerAt(NewChecker(ParseConfigWithFallback(env, DeadlineLookup(deadline, true), now).cfg))
         == DefaultCheckTimeout
  {
  }
}
