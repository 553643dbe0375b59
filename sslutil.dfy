/** The certificate inspector of pkg/sslutil: after a TLS dial to
    host:port, classify the first peer certificate against the current
    instant and a threshold in days. Instants and durations are integer
    nanoseconds; the dial itself is an input (its outcome), since it is
    network I/O. */
module SslUtil {
  import opened Base
  import opened Strconv

  /** 24 hours, in nanoseconds. */
  const NanosPerDay: int := 24 * NanosPerHour

  /** The validity window of an X.509 certificate. */
  datatype Certificate = Certificate(notBefore: int, notAfter: int)

  /** What tls.DialWithDialer gave: its error, or the connection's peer
      certificate chain (leaf first). */
  datatype DialOutcome =
    | DialFailed(cause: Error)
    | Connected(peerCertificates: seq<Certificate>)

  /** A successful client handshake always carries the server's leaf
      certificate, so the chain of a connection is never empty. */
  predicate WellFormed(dial: DialOutcome) {
    dial.Connected? ==> |dial.peerCertificates| > 0
  }

  /** The three results of CertExpiry: expired, expire-warning, error. */
  datatype Inspection = Inspection(expired: bool, expireWarning: bool, err: Option<Error>)

  /** Valid at `now`: inside the window, both ends included (as in
      section 4.1.2.5 of RFC 5280). */
  predicate InWindow(cert: Certificate, now: int) {
    cert.notBefore <= now <= cert.notAfter
  }

  /** The threshold CertExpiry compares against: the value of ParseUint with
      its error discarded, so a malformed string counts as 0 and an
      overflowing one as 2^64 - 1. */
  function Threshold(days: string): (t: nat)
    ensures IsUint64Decimal(days) ==> t == DecimalValue(days)
    ensures !IsUint64Decimal(days) && !RunOverflows(days) ==> t == 0
    ensures RunOverflows(days) ==> t == MaxUint64
  {
    OverflowIsNotDecimal(days);
    ParseUint64(days).value
  }

  /** uint(notAfter.Sub(now).Hours()) / 24. The hours are truncated toward
      zero; converting a negative hour count (one hour or more past
      notAfter) to uint is implementation-dependent in Go, so the value the
      platform yields for it is the parameter `negativeCast`. */
  function DaysUntilInvalid(notAfter: int, now: int, negativeCast: nat): (d: nat)
    ensures now <= notAfter ==> d * NanosPerDay <= notAfter - now < (d + 1) * NanosPerDay
    ensures notAfter < now < notAfter + NanosPerHour ==> d == 0
    ensures notAfter + NanosPerHour <= now ==> d == negativeCast / 24
  {
    var hours := TruncDiv(notAfter - now, NanosPerHour);
    var cast: nat := if hours >= 0 then hours else negativeCast;
    cast / 24
  }

  /** CertExpiry after the dial: two flags, each set by its own test; the
      error is the dial's, and nil once connected. */
  function CertExpiry(days: string, dial: DialOutcome, now: int, negativeCast: nat): (r: Inspection)
    requires WellFormed(dial)
    ensures dial.DialFailed? ==> r == Inspection(false, false, Some(dial.cause))
    ensures dial.Connected? ==> r.err == None
    ensures dial.Connected? ==> (r.expired <==> !InWindow(dial.peerCertificates[0], now))
    ensures dial.Connected? ==>
      (r.expireWarning <==>
         Threshold(days) >= DaysUntilInvalid(dial.peerCertificates[0].notAfter, now, negativeCast))
  {
    match dial
    case DialFailed(cause) => Inspection(false, false, Some(cause))
    case Connected(chain) =>
      var leaf := chain[0];
      var threshold := Threshold(days);
      var daysUntilInvalid := DaysUntilInvalid(leaf.notAfter, now, negativeCast);
      var expired := now < leaf.notBefore || now > leaf.notAfter;
      var warning := threshold >= daysUntilInvalid;
      Inspection(expired, warning, None)
  }

  /** While the certificate has not passed notAfter, the warning fires
      exactly when less than threshold + 1 whole days remain. */
  lemma WarningIffWithinThreshold(days: string, leaf: Certificate, rest: seq<Certificate>, now: int, negativeCast: nat)
    requires now <= leaf.notAfter
    ensures CertExpiry(days, Connected([leaf] + rest), now, negativeCast).expireWarning <==>
      leaf.notAfter - now < (Threshold(days) + 1) * NanosPerDay
  {
  }

  /** Both ends of the window count as valid; one nanosecond outside either
      end is expired. */
  lemma WindowBoundaries(days: string, leaf: Certificate, now: int, negativeCast: nat)
    requires leaf.notBefore <= leaf.notAfter
    ensures !CertExpiry(days, Connected([leaf]), leaf.notBefore, negativeCast).expired
    ensures !CertExpiry(days, Connected([leaf]), leaf.notAfter, negativeCast).expired
    ensures CertExpiry(days, Connected([leaf]), leaf.notBefore - 1, negativeCast).expired
    ensures CertExpiry(days, Connected([leaf]), leaf.notAfter + 1, negativeCast).expired
  {
  }

  /** A threshold equal to the remaining whole days already warns; one less
      does not. */
  lemma WarningAtEqualThreshold(leaf: Certificate, now: int, negativeCast: nat, n: nat)
    requires n <= MaxUint64
    requires now <= leaf.notAfter
    requires DaysUntilInvalid(leaf.notAfter, now, negativeCast) == n
    ensures CertExpiry(FormatDecimal(n), Connected([leaf]), now, negativeCast).expireWarning
    ensures n > 0 ==> !CertExpiry(FormatDecimal(n - 1), Connected([leaf]), now, negativeCast).expireWarning
  {
    ParseFormatRoundTrip(n);
    if n > 0 {
      ParseFormatRoundTrip(n - 1);
    }
  }

  /** Whole hours are counted before dividing by 24: 47h59m leaves one day,
      23h59m leaves none. */
  lemma DayCountExamples(notAfter: int, negativeCast: nat)
    ensures DaysUntilInvalid(notAfter, notAfter - 47 * NanosPerHour - 59 * 60 * NanosPerSecond, negativeCast) == 1
    ensures DaysUntilInvalid(notAfter, notAfter - 23 * NanosPerHour - 59 * 60 * NanosPerSecond, negativeCast) == 0
    ensures DaysUntilInvalid(notAfter, notAfter - NanosPerDay, negativeCast) == 1
  {
  }

  /** A days string that ParseUint rejects as malformed is read as 0: the
      warning then fires exactly when no whole day remains. */
  lemma MalformedDaysMeansZero(days: string, leaf: Certificate, rest: seq<Certificate>, now: int, negativeCast: nat)
    requires !IsUint64Decimal(days) && !RunOverflows(days)
    ensures CertExpiry(days, Connected([leaf] + rest), now, negativeCast).expireWarning <==>
      DaysUntilInvalid(leaf.notAfter, now, negativeCast) == 0
  {
  }

  /** Only the first certificate of the chain is looked at. */
  lemma OnlyLeafMatters(days: string, leaf: Certificate, rest: seq<Certificate>, now: int, negativeCast: nat)
    ensures CertExpiry(days, Connected([leaf] + rest), now, negativeCast)
         == CertExpiry(days, Connected([leaf]), now, negativeCast)
  {
  }

  /** The two flags are independent: a certificate can be in its window and
      expiring, expired and expiring, or expired and not expiring. */
  lemma FlagsIndependent(negativeCast: nat)
    ensures exists now: int, c: Certificate ::
      CertExpiry("5", Connected([c]), now, negativeCast) == Inspection(false, true, None)
    ensures exists now: int, c: Certificate ::
      CertExpiry("5", Connected([c]), now, negativeCast) == Inspection(true, true, None)
    ensures exists now: int, c: Certificate ::
      CertExpiry("5", Connected([c]), now, negativeCast) == Inspection(true, false, None)
  {
    ParseFormatRoundTrip(5);
    assert FormatDecimal(5) == "5";
    var valid := Certificate(-365 * NanosPerDay, 2 * NanosPerDay);
    assert CertExpiry("5", Connected([valid]), 0, negativeCast) == Inspection(false, true, None);
    var justPast := Certificate(-365 * NanosPerDay, -1);
    assert CertExpiry("5", Connected([justPast]), 0, negativeCast) == Inspection(true, true, None);
    var notYet := Certificate(NanosPerDay, 100 * NanosPerDay);
    assert CertExpiry("5", Connected([notYet]), 0, negativeCast) == Inspection(true, false, None);
  }

  /** Three certificates classified at the same instant: ten days left with
      a 30-day threshold warns; a day past notAfter is expired whatever the
      threshold; a hundred days left with a 5-day threshold is healthy. */
  lemma ClassificationExamples(days: string, now: int, negativeCast: nat)
    ensures CertExpiry("30", Connected([Certificate(now - 365 * NanosPerDay, now + 10 * NanosPerDay)]), now, negativeCast)
         == Inspection(false, true, None)
    ensures CertExpiry(days, Connected([Certificate(now - 365 * NanosPerDay, now - NanosPerDay)]), now, negativeCast).expired
    ensures CertExpiry("5", Connected([Certificate(now - NanosPerDay, now + 100 * NanosPerDay)]), now, negativeCast)
         == Inspection(false, false, None)
  {
  }
}
