/** Expiry arithmetic of the certificate lifecycle, and what it promises over a whole
    series of runs.  Times are in microseconds. */
module CertificateTime {

  const SECOND: int := 1_000_000
  const MINUTE: int := 60 * SECOND
  const DAY_SECONDS: int := 86_400
  const DAY: int := DAY_SECONDS * SECOND

  /** The configured thresholds, in days. */
  datatype Config = Config(
    serverValidity: int, serverWarning: int, serverRenew: int, serverCritical: int,
    caWarning: int, caCritical: int, caSigningMargin: int)

  const DEFAULTS := Config(825, 90, 60, 30, 730, 365, 90)

  datatype State = Healthy | Warning | RenewDue | Critical | Expired

  /** Whole seconds, truncated toward zero. */
  function WholeSeconds(span: int): int {
    if span >= 0 then span / SECOND else -((-span) / SECOND)
  }

  function RemainingSeconds(notAfter: int, now: int): int {
    WholeSeconds(notAfter - now)
  }

  function ServerState(notAfter: int, now: int, c: Config): State {
    var remaining := RemainingSeconds(notAfter, now);
    if remaining <= 0 then Expired
    else if remaining <= c.serverCritical * DAY_SECONDS then Critical
    else if remaining <= c.serverRenew * DAY_SECONDS then RenewDue
    else if remaining <= c.serverWarning * DAY_SECONDS then Warning
    else Healthy
  }

  function CaState(notAfter: int, now: int, c: Config): State {
    var remaining := RemainingSeconds(notAfter, now);
    if remaining <= 0 then Expired
    else if remaining <= c.caCritical * DAY_SECONDS then Critical
    else if remaining <= c.caWarning * DAY_SECONDS then Warning
    else Healthy
  }

  predicate RenewalRequired(s: State) {
    s == RenewDue || s == Critical || s == Expired
  }

  function MinimumCaSeconds(c: Config): int {
    (c.serverValidity + c.caSigningMargin) * DAY_SECONDS
  }

  // ----- Single decisions

  function Rank(s: State): nat {
    match s
    case Healthy => 0
    case Warning => 1
    case RenewDue => 2
    case Critical => 3
    case Expired => 4
  }

  lemma WholeSecondsMonotone(a: int, b: int)
    requires a <= b
    ensures WholeSeconds(a) <= WholeSeconds(b)
  {
  }

  /** Time only moves the states forward, whatever the thresholds are. */
  lemma StatesMoveForward(notAfter: int, now: int, later: int, c: Config)
    requires now <= later
    ensures Rank(ServerState(notAfter, now, c)) <= Rank(ServerState(notAfter, later, c))
    ensures Rank(CaState(notAfter, now, c)) <= Rank(CaState(notAfter, later, c))
  {
    WholeSecondsMonotone(notAfter - later, notAfter - now);
  }

  lemma RemainingOf(seconds: int)
    ensures RemainingSeconds(seconds * SECOND, 0) == seconds
  {
  }

  predicate DueByRemaining(c: Config, notAfter: int, now: int) {
    RenewalRequired(ServerState(notAfter, now, c)) <==>
    RemainingSeconds(notAfter, now) <= c.serverRenew * DAY_SECONDS
  }

  /** A renewal is required exactly when the truncated remaining time is within the
      renewal window, provided the critical threshold does not exceed the renewal
      threshold and that is not negative; otherwise some certificate breaks the rule. */
  lemma RenewalRequiredIff(c: Config)
    ensures (forall notAfter: int, now: int :: DueByRemaining(c, notAfter, now)) <==>
              c.serverCritical <= c.serverRenew && 0 <= c.serverRenew
  {
    if c.serverCritical > c.serverRenew {
      RemainingOf(c.serverCritical * DAY_SECONDS);
      assert !DueByRemaining(c, c.serverCritical * DAY_SECONDS * SECOND, 0);
    } else if c.serverRenew < 0 {
      RemainingOf(0);
      assert !DueByRemaining(c, 0 * SECOND, 0);
    }
  }

  /** The candidate checks on validity. */
  predicate ValidityAccepted(c: Config, now: int, notBefore: int, notAfter: int) {
    && notBefore <= now + 10 * MINUTE
    && notAfter - notBefore <= c.serverValidity * DAY + 10 * MINUTE
  }

  /** A candidate that passes the checks while the CA has enough time left expires no
      later than the CA minus the safety margin, plus twenty minutes. */
  lemma RenewedWithinCa(c: Config, caNotAfter: int, now: int, notBefore: int, notAfter: int)
    requires MinimumCaSeconds(c) > 0
    requires RemainingSeconds(caNotAfter, now) >= MinimumCaSeconds(c)
    requires ValidityAccepted(c, now, notBefore, notAfter)
    ensures notAfter <= caNotAfter - c.caSigningMargin * DAY + 20 * MINUTE
  {
    assert caNotAfter - now >= MinimumCaSeconds(c) * SECOND;
  }

  // ----- Series of runs

  datatype Outcome = NotDue | RolloverRequired | Failed | Renewed(notBefore: int)

  /** One run of the tool, seen from the certificate's expiry.  `Failed` covers every run
      that was due, was allowed to sign, and left the certificate as it was. */
  predicate RunStep(c: Config, caNotAfter: int, now: int, before: int, outcome: Outcome, after: int) {
    && (outcome == NotDue <==> !RenewalRequired(ServerState(before, now, c)))
    && (outcome == RolloverRequired <==>
          RenewalRequired(ServerState(before, now, c)) && RemainingSeconds(caNotAfter, now) < MinimumCaSeconds(c))
    && (!outcome.Renewed? ==> after == before)
    && (outcome.Renewed? ==> ValidityAccepted(c, now, outcome.notBefore, after))
  }

  datatype Run = Run(now: int, outcome: Outcome, notAfter: int)

  predicate Series(c: Config, caNotAfter: int, time: int, notAfter: int, runs: seq<Run>)
    decreases |runs|
  {
    runs == [] ||
    (&& time <= runs[0].now
     && RunStep(c, caNotAfter, runs[0].now, notAfter, runs[0].outcome, runs[0].notAfter)
     && Series(c, caNotAfter, runs[0].now, runs[0].notAfter, runs[1..]))
  }

  predicate GapsWithin(gap: int, time: int, runs: seq<Run>)
    decreases |runs|
  {
    runs == [] || (runs[0].now - time <= gap && GapsWithin(gap, runs[0].now, runs[1..]))
  }

  /** Never more than `k` failures in a row, `already` of them before the series. */
  predicate FailuresWithin(k: nat, already: nat, runs: seq<Run>)
    decreases |runs|
  {
    runs == [] ||
    (var now := if runs[0].outcome == Failed then already + 1 else 0;
     now <= k && FailuresWithin(k, now, runs[1..]))
  }

  /** Issued for the whole validity, counted from a whole second that may lie up to a second
      before the run's own clock. */
  predicate Full(c: Config, now: int, notAfter: int) {
    notAfter > now + c.serverValidity * DAY - SECOND
  }

  predicate IssuedInFull(c: Config, runs: seq<Run>) {
    forall r | r in runs :: r.outcome.Renewed? ==> Full(c, r.now, r.notAfter)
  }

  /** A certificate with whole-second times that is valid for the configured days from the
      second in which it is issued, at some time during the run, is issued in full. */
  lemma WholeSecondIssueIsFull(c: Config, now: int, issued: int, notBefore: int, notAfter: int)
    requires now <= issued && notBefore == issued - issued % SECOND
    requires notAfter == notBefore + c.serverValidity * DAY
    ensures Full(c, now, notAfter)
  {
  }

  predicate CaSigns(c: Config, caNotAfter: int, now: int) {
    RemainingSeconds(caNotAfter, now) >= MinimumCaSeconds(c)
  }

  /** After every run the certificate outlives the longest wait for the next one. */
  predicate AlwaysCovered(gap: int, runs: seq<Run>) {
    forall r | r in runs :: r.now + gap < r.notAfter
  }

  lemma CaSignedEarlier(c: Config, caNotAfter: int, now: int, later: int)
    requires now <= later && CaSigns(c, caNotAfter, later)
    ensures CaSigns(c, caNotAfter, now)
  {
    WholeSecondsMonotone(caNotAfter - later, caNotAfter - now);
  }

  lemma {:induction false} SeriesOrdered(c: Config, caNotAfter: int, time: int, notAfter: int, runs: seq<Run>)
    requires Series(c, caNotAfter, time, notAfter, runs) && runs != []
    ensures time <= runs[|runs| - 1].now
    decreases |runs|
  {
    if |runs| > 1 {
      SeriesOrdered(c, caNotAfter, runs[0].now, runs[0].notAfter, runs[1..]);
    }
  }

  lemma Scale(n: nat, gap: int)
    ensures (n + 1) * gap == n * gap + gap
  {
  }

  lemma ScaleMonotone(a: nat, b: nat, gap: int)
    requires a <= b && gap >= 0
    ensures a * gap <= b * gap
  {
    if a < b {
      ScaleMonotone(a, b - 1, gap);
      Scale(b - 1, gap);
    }
  }

  /** One run keeps enough slack for the failures that may still follow. */
  lemma SlackKept(c: Config, caNotAfter: int, time: int, notAfter: int, run: Run, gap: int, k: nat, already: nat)
    requires gap >= 0 && already <= k && (k + 1) * gap <= c.serverRenew * DAY
    requires c.serverCritical <= c.serverRenew < c.serverValidity && 0 <= c.serverRenew
    requires notAfter - time > (k + 1 - already) * gap
    requires time <= run.now <= time + gap
    requires RunStep(c, caNotAfter, run.now, notAfter, run.outcome, run.notAfter)
    requires CaSigns(c, caNotAfter, run.now)
    requires run.outcome.Renewed? ==> Full(c, run.now, run.notAfter)
    requires run.outcome == Failed ==> already + 1 <= k
    ensures var next: nat := if run.outcome == Failed then already + 1 else 0;
            run.notAfter - run.now > (k + 1 - next) * gap
  {
    if run.outcome == Failed {
      Scale(k - already, gap);
    } else {
      assert run.notAfter - run.now > c.serverRenew * DAY;
    }
  }

  lemma SlackCovers(run: Run, gap: int, k: nat, already: nat)
    requires gap >= 0 && already <= k
    requires run.notAfter - run.now > (k + 1 - already) * gap
    ensures run.now + gap < run.notAfter
  {
    ScaleMonotone(1, k + 1 - already, gap);
  }

  lemma {:induction false} SlackCarries(c: Config, caNotAfter: int, time: int, notAfter: int,
                                             runs: seq<Run>, gap: int, k: nat, already: nat)
    requires gap >= 0 && already <= k && (k + 1) * gap <= c.serverRenew * DAY
    requires c.serverCritical <= c.serverRenew < c.serverValidity && 0 <= c.serverRenew
    requires notAfter - time > (k + 1 - already) * gap
    requires Series(c, caNotAfter, time, notAfter, runs)
    requires GapsWithin(gap, time, runs) && FailuresWithin(k, already, runs) && IssuedInFull(c, runs)
    requires runs != [] ==> CaSigns(c, caNotAfter, runs[|runs| - 1].now)
    ensures AlwaysCovered(gap, runs)
    decreases |runs|
  {
    if runs != [] {
      var run, rest := runs[0], runs[1..];
      FirstRun(c, caNotAfter, time, notAfter, runs, gap, k, already);
      var next: nat := if run.outcome == Failed then already + 1 else 0;
      SlackCovers(run, gap, k, next);
      SlackCarries(c, caNotAfter, run.now, run.notAfter, rest, gap, k, next);
      assert forall r | r in runs :: r == run || r in rest;
    }
  }

  lemma FirstRun(c: Config, caNotAfter: int, time: int, notAfter: int, runs: seq<Run>, gap: int, k: nat, already: nat)
    requires gap >= 0 && already <= k && (k + 1) * gap <= c.serverRenew * DAY
    requires c.serverCritical <= c.serverRenew < c.serverValidity && 0 <= c.serverRenew
    requires notAfter - time > (k + 1 - already) * gap
    requires Series(c, caNotAfter, time, notAfter, runs)
    requires GapsWithin(gap, time, runs) && FailuresWithin(k, already, runs) && IssuedInFull(c, runs)
    requires runs != [] && CaSigns(c, caNotAfter, runs[|runs| - 1].now)
    ensures var run, rest := runs[0], runs[1..];
            var next: nat := if run.outcome == Failed then already + 1 else 0;
            && next <= k && run.notAfter - run.now > (k + 1 - next) * gap
            && Series(c, caNotAfter, run.now, run.notAfter, rest)
            && GapsWithin(gap, run.now, rest) && FailuresWithin(k, next, rest) && IssuedInFull(c, rest)
            && (rest != [] ==> CaSigns(c, caNotAfter, rest[|rest| - 1].now))
  {
    var run, rest := runs[0], runs[1..];
    assert run in runs;
    assert forall r | r in rest :: r in runs;
    if rest != [] {
      SeriesOrdered(c, caNotAfter, run.now, run.notAfter, rest);
      CaSignedEarlier(c, caNotAfter, run.now, rest[|rest| - 1].now);
    }
    SlackKept(c, caNotAfter, time, notAfter, run, gap, k, already);
  }

  /** A certificate that starts outside the renewal window never expires between runs, as
      long as the runs are at most `gap` apart, at most `k` renewals fail in a row,
      k + 1 gaps fit into the window, candidates are issued in full, and the CA can
      still sign at the last run. */
  lemma NeverExpires(c: Config, caNotAfter: int, start: int, notAfter: int, runs: seq<Run>, gap: int, k: nat)
    requires gap >= 0 && (k + 1) * gap <= c.serverRenew * DAY
    requires c.serverCritical <= c.serverRenew < c.serverValidity && 0 <= c.serverRenew
    requires !RenewalRequired(ServerState(notAfter, start, c))
    requires Series(c, caNotAfter, start, notAfter, runs)
    requires GapsWithin(gap, start, runs) && FailuresWithin(k, 0, runs) && IssuedInFull(c, runs)
    requires runs != [] ==> CaSigns(c, caNotAfter, runs[|runs| - 1].now)
    ensures start + gap < notAfter && AlwaysCovered(gap, runs)
  {
    assert notAfter - start > c.serverRenew * DAY;
    SlackCovers(Run(start, NotDue, notAfter), gap, k, 0);
    SlackCarries(c, caNotAfter, start, notAfter, runs, gap, k, 0);
  }

  /** From the moment the CA's remaining time is below validity plus margin, no run ever
      renews again: due runs report that the CA has to be replaced, and the certificate
      stays what it was. */
  lemma {:induction false} RolloverFromThenOn(c: Config, caNotAfter: int, time: int, notAfter: int, runs: seq<Run>)
    requires Series(c, caNotAfter, time, notAfter, runs)
    requires !CaSigns(c, caNotAfter, time)
    ensures forall r | r in runs ::
              && (r.outcome == NotDue || r.outcome == RolloverRequired)
              && (r.outcome == RolloverRequired <==> RenewalRequired(ServerState(notAfter, r.now, c)))
              && r.notAfter == notAfter
    decreases |runs|
  {
    if runs != [] {
      var run := runs[0];
      WholeSecondsMonotone(caNotAfter - run.now, caNotAfter - time);
      RolloverFromThenOn(c, caNotAfter, run.now, run.notAfter, runs[1..]);
      assert forall r | r in runs :: r == run || r in runs[1..];
    }
  }

  /** With the default thresholds a daily timer with up to an hour of random delay
      tolerates 56 failed renewals in a row. */
  lemma DefaultsTolerate(caNotAfter: int, start: int, notAfter: int, runs: seq<Run>)
    requires !RenewalRequired(ServerState(notAfter, start, DEFAULTS))
    requires Series(DEFAULTS, caNotAfter, start, notAfter, runs)
    requires GapsWithin(DAY + 3600 * SECOND, start, runs) && FailuresWithin(56, 0, runs) && IssuedInFull(DEFAULTS, runs)
    requires runs != [] ==> CaSigns(DEFAULTS, caNotAfter, runs[|runs| - 1].now)
    ensures AlwaysCovered(DAY + 3600 * SECOND, runs)
  {
    NeverExpires(DEFAULTS, caNotAfter, start, notAfter, runs, DAY + 3600 * SECOND, 56);
  }
}
