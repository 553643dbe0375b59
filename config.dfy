/** parseConfig of cmd/ssl-expiry-check: read the probe's settings from the
    environment, in a fixed order of checks where the first failure ends the
    parse, and compute the check's time limit from the harness's deadline.
    The environment, the deadline lookup and the clock are inputs. */
module Config {
  import opened Base
  import opened Strconv

  /** The fallback time limit, 20 seconds. */
  const DefaultCheckTimeout: int := 20 * NanosPerSecond

  /** The margin kept before the harness's deadline, 5 seconds. */
  const DeadlineMargin: int := 5 * NanosPerSecond

  datatype CheckConfig = CheckConfig(
    DomainName: string,
    Port: string,
    DaysToExpire: string,
    InsecureSkipVerify: bool,
    CheckTimeout: int)

  /** What checkclient.GetDeadline returned: an instant, and whether it came
      with an error. */
  datatype DeadlineLookup = DeadlineLookup(deadline: int, failed: bool)

  /** parseConfig's (config, error) pair. */
  datatype ConfigResult = Configured(cfg: CheckConfig) | Rejected(error: Error)

  /** os.Getenv: an unset variable reads as the empty string. */
  function Getenv(env: map<string, string>, key: string): (v: string)
    ensures key in env ==> v == env[key]
    ensures key !in env ==> v == ""
  {
    if key in env then env[key] else ""
  }

  function NotSetError(name: string): Error {
    Plain(name + " environment variable has not been set")
  }

  /** The checks of parseConfig, in the order it makes them. */
  datatype Check = DomainNameSet | PortSet | DaysSet | DaysParses | InsecureSet | InsecureParses

  const CheckOrder: seq<Check> := [DomainNameSet, PortSet, DaysSet, DaysParses, InsecureSet, InsecureParses]

  predicate Passes(check: Check, env: map<string, string>) {
    match check
    case DomainNameSet => Getenv(env, "DOMAIN_NAME") != ""
    case PortSet => Getenv(env, "PORT") != ""
    case DaysSet => Getenv(env, "DAYS") != ""
    case DaysParses => IsUint64Decimal(Getenv(env, "DAYS"))
    case InsecureSet => Getenv(env, "INSECURE") != ""
    case InsecureParses => Getenv(env, "INSECURE") in TrueSpellings + FalseSpellings
  }

  /** The error a failed check returns. */
  function FailureOf(check: Check, env: map<string, string>): Error {
    match check
    case DomainNameSet => NotSetError("DOMAIN_NAME")
    case PortSet => NotSetError("PORT")
    case DaysSet => NotSetError("DAYS")
    case DaysParses => Wrapped("failed to parse DAYS", NumError("ParseUint", Getenv(env, "DAYS"),
                         if RunOverflows(Getenv(env, "DAYS")) then ErrRange else ErrSyntax))
    case InsecureSet => NotSetError("INSECURE")
    case InsecureParses => Wrapped("failed to parse INSECURE", NumError("ParseBool", Getenv(env, "INSECURE"), ErrSyntax))
  }

  /** The validation chain of parseConfig, with the time limit it stores on
      success already computed. */
  function Validate(env: map<string, string>, checkTimeout: int): (r: ConfigResult)
    ensures r.Configured? <==> forall i :: 0 <= i < |CheckOrder| ==> Passes(CheckOrder[i], env)
    ensures r.Configured? ==>
      r.cfg == CheckConfig(Getenv(env, "DOMAIN_NAME"), Getenv(env, "PORT"), Getenv(env, "DAYS"),
                           Getenv(env, "INSECURE") in TrueSpellings, checkTimeout)
  {
    var domainName := Getenv(env, "DOMAIN_NAME");
    if |domainName| == 0 then assert !Passes(CheckOrder[0], env); Rejected(NotSetError("DOMAIN_NAME")) else
    var portNum := Getenv(env, "PORT");
    if |portNum| == 0 then assert !Passes(CheckOrder[1], env); Rejected(NotSetError("PORT")) else
    var daysToExpire := Getenv(env, "DAYS");
    if |daysToExpire| == 0 then assert !Passes(CheckOrder[2], env); Rejected(NotSetError("DAYS")) else
    var days := ParseUint64(daysToExpire);
    if days.err.Some? then assert !Passes(CheckOrder[3], env); Rejected(Wrapped("failed to parse DAYS", days.err.value)) else
    var insecureCheck := Getenv(env, "INSECURE");
    if |insecureCheck| == 0 then assert !Passes(CheckOrder[4], env); Rejected(NotSetError("INSECURE")) else
    var insecure := ParseBool(insecureCheck);
    if insecure.err.Some? then assert !Passes(CheckOrder[5], env); Rejected(Wrapped("failed to parse INSECURE", insecure.err.value)) else
    assert Passes(DomainNameSet, env) && Passes(PortSet, env) && Passes(DaysSet, env);
    assert Passes(DaysParses, env) && Passes(InsecureSet, env) && Passes(InsecureParses, env);
    Configured(CheckConfig(domainName, portNum, daysToExpire, insecure.value, checkTimeout))
  }

  /** The time limit as parseConfig computes it: deadline - (now + 5s). The
      20-second default is assigned first and then always overwritten, also
      when the lookup failed. */
  function TimeoutAsWritten(lookup: DeadlineLookup, now: int): (t: int)
    ensures t + DeadlineMargin + now == lookup.deadline
  {
    lookup.deadline - (now + DeadlineMargin)
  }

  /** parseConfig, as written. */
  function ParseConfig(env: map<string, string>, lookup: DeadlineLookup, now: int): (r: ConfigResult)
    ensures r.Configured? <==> forall i :: 0 <= i < |CheckOrder| ==> Passes(CheckOrder[i], env)
    ensures r.Configured? ==> r.cfg.CheckTimeout == lookup.deadline - (now + DeadlineMargin)
  {
    Validate(env, TimeoutAsWritten(lookup, now))
  }

  /** The first check that fails decides the error; nothing is configured. */
  lemma {:induction false} FirstFailureWins(env: map<string, string>, checkTimeout: int, i: nat)
    requires i < |CheckOrder| && !Passes(CheckOrder[i], env)
    requires forall j :: 0 <= j < i ==> Passes(CheckOrder[j], env)
    ensures Validate(env, checkTimeout) == Rejected(FailureOf(CheckOrder[i], env))
  {
    if i > 0 { assert Passes(CheckOrder[0], env); }
    if i > 1 { assert Passes(CheckOrder[1], env); }
    if i > 2 { assert Passes(CheckOrder[2], env); }
    if i > 3 { assert Passes(CheckOrder[3], env); }
    if i > 4 { assert Passes(CheckOrder[4], env); }
    if i == 3 {
      OverflowIsNotDecimal(Getenv(env, "DAYS"));
    }
  }

  /** On success the three strings are stored exactly as read (DAYS as the
      raw string, not its value) and INSECURE as the boolean it spells. */
  lemma AcceptedFields(env: map<string, string>, lookup: DeadlineLookup, now: int)
    requires ParseConfig(env, lookup, now).Configured?
    ensures var cfg := ParseConfig(env, lookup, now).cfg;
      && cfg.DomainName == env["DOMAIN_NAME"] != ""
      && cfg.Port == env["PORT"] != ""
      && cfg.DaysToExpire == env["DAYS"]
      && IsUint64Decimal(cfg.DaysToExpire)
      && (cfg.InsecureSkipVerify <==> env["INSECURE"] in TrueSpellings)
  {
  }

  /** DAYS and INSECURE are accepted exactly when Go's parsers accept them,
      once the earlier checks pass. */
  lemma AcceptedIffParsable(env: map<string, string>, lookup: DeadlineLookup, now: int)
    requires Getenv(env, "DOMAIN_NAME") != "" && Getenv(env, "PORT") != ""
    ensures ParseConfig(env, lookup, now).Configured? <==>
      IsUint64Decimal(Getenv(env, "DAYS")) && ParseBool(Getenv(env, "INSECURE")).err.None?
  {
  }

  /** An empty value is rejected exactly like a missing one. */
  lemma EmptyIsUnset(env: map<string, string>, key: string, lookup: DeadlineLookup, now: int)
    ensures ParseConfig(env[key := ""], lookup, now) == ParseConfig(env - {key}, lookup, now)
  {
  }

  /** The time limit does not depend on whether the deadline lookup failed. */
  lemma TimeoutIgnoresLookupFailure(env: map<string, string>, deadline: int, now: int)
    ensures ParseConfig(env, DeadlineLookup(deadline, true), now)
         == ParseConfig(env, DeadlineLookup(deadline, false), now)
  {
  }

  // ---------------------------------------------------------------------
  // The fallback the 20-second default was meant to provide

  /** Go's zero time.Time (January 1, year 1 UTC) in Unix nanoseconds. */
  const ZeroTime: int := -62_135_596_800 * NanosPerSecond

  /** A failed lookup whose instant is Go's zero time yields a negative
      time limit, not the 20-second default: the check's timer then fires
      at once. */
  lemma FailedLookupDiscardsDefault(env: map<string, string>, now: int)
    requires now >= 0
    requires ParseConfig(env, DeadlineLookup(ZeroTime, true), now).Configured?
    ensures ParseConfig(env, DeadlineLookup(ZeroTime, true), now).cfg.CheckTimeout < 0
    ensures ParseConfig(env, DeadlineLookup(ZeroTime, true), now).cfg.CheckTimeout != DefaultCheckTimeout
  {
  }

  /** The time limit with the fallback applied when the lookup failed. */
  function TimeoutWithFallback(lookup: DeadlineLookup, now: int): (t: int)
    ensures lookup.failed ==> t == DefaultCheckTimeout
    ensures !lookup.failed ==> t == TimeoutAsWritten(lookup, now)
  {
    if lookup.failed then DefaultCheckTimeout else lookup.deadline - (now + DeadlineMargin)
  }

  /** parseConfig with the fallback: same checks, same fields. */
  function ParseConfigWithFallback(env: map<string, string>, lookup: DeadlineLookup, now: int): (r: ConfigResult)
    ensures r.Configured? <==> ParseConfig(env, lookup, now).Configured?
    ensures r.Configured? && lookup.failed ==> r.cfg.CheckTimeout == DefaultCheckTimeout
    ensures !lookup.failed ==> r == ParseConfig(env, lookup, now)
  {
    Validate(env, TimeoutWithFallback(lookup, now))
  }

  /** With the fallback, the outcome differs from parseConfig only in the
      time limit, and only when the lookup failed. */
  lemma FallbackChangesOnlyTimeout(env: map<string, string>, lookup: DeadlineLookup, now: int)
    requires ParseConfig(env, lookup, now).Configured?
    ensures ParseConfigWithFallback(env, lookup, now).cfg
         == ParseConfig(env, lookup, now).cfg.(CheckTimeout := TimeoutWithFallback(lookup, now))
  {
  }
}
