/**
 * The login risk score (`src/lib/auth/risk.ts`): two rate-limit flags and
 * three recent-failure counts add up to a capped score, from which a soft
 * delay and a hard-block verdict follow.
 */
module Risk {

  datatype RiskSignals = RiskSignals(
    ipSoftLimited: bool,
    emailLimited: bool,
    emailFailuresLastHour: nat,
    ipFailuresLastHour: nat,
    uaFailuresLastHour: nat)

  datatype RiskDecision = RiskDecision(score: int, softDelayMs: int, hardBlock: bool)

  /**
   * What `loadRecentFailures` counts: failure events of the last hour for
   * the address, the address hash and the user-agent hash. The counting
   * queries are not part of this model; the counts are inputs.
   */
  datatype RecentFailures = RecentFailures(email: nat, ip: nat, ua: nat)

  /** The signals a login route passes to `decideRisk`. */
  function SignalsOf(ipSoftLimited: bool, emailLimited: bool, failures: RecentFailures): RiskSignals {
    RiskSignals(ipSoftLimited, emailLimited, failures.email, failures.ip, failures.ua)
  }

  const EmailLimitedPoints := 35
  const IpSoftLimitedPoints := 45
  const HardBlockScore := 95
  const DelayThreshold := 40
  const MaxDelayMs := 8000

  function Min(a: int, b: int): int {
    if a <= b then a else b
  }

  /** Points for failures: `per` each, at most `cap`. */
  function FailurePoints(count: nat, per: nat, cap: nat): (p: nat)
    ensures p <= cap
    ensures p == cap <==> count * per >= cap
    ensures count == 0 ==> p == 0
  {
    Min(cap, count * per)
  }

  function EmailFailurePoints(s: RiskSignals): (p: nat)
    ensures p <= 25
  {
    FailurePoints(s.emailFailuresLastHour, 5, 25)
  }

  function IpFailurePoints(s: RiskSignals): (p: nat)
    ensures p <= 25
  {
    FailurePoints(s.ipFailuresLastHour, 2, 25)
  }

  function UaFailurePoints(s: RiskSignals): (p: nat)
    ensures p <= 15
  {
    FailurePoints(s.uaFailuresLastHour, 3, 15)
  }

  function FlagPoints(s: RiskSignals): (p: nat)
    ensures p <= 80
  {
    (if s.emailLimited then EmailLimitedPoints else 0) + (if s.ipSoftLimited then IpSoftLimitedPoints else 0)
  }

  /** `scoreSignals`: the sum of the five contributions, capped at 100. */
  function ScoreSignals(s: RiskSignals): (score: int)
    ensures 0 <= score <= 100
    ensures score <= FlagPoints(s) + 65
  {
    Min(100, FlagPoints(s) + EmailFailurePoints(s) + IpFailurePoints(s) + UaFailurePoints(s))
  }

  /** The soft delay for a score: none below 40, else 1000 ms plus 120 ms a point, at most 8000 ms. */
  function SoftDelayMs(score: int): (delay: int)
    ensures delay == 0 <==> score < DelayThreshold
    ensures delay != 0 ==> 1000 <= delay <= MaxDelayMs
  {
    if score >= DelayThreshold then Min(MaxDelayMs, 1000 + (score - DelayThreshold) * 120) else 0
  }

  /** `decideRisk`. */
  function DecideRisk(s: RiskSignals): (d: RiskDecision)
    ensures 0 <= d.score <= 100
    ensures d.softDelayMs == 0 <==> d.score < 40
    ensures d.softDelayMs == 0 || 1000 <= d.softDelayMs <= 8000
    ensures d.hardBlock <==> d.score >= 95
  {
    var score := ScoreSignals(s);
    RiskDecision(score, SoftDelayMs(score), score >= HardBlockScore)
  }

  /** Every signal of `a` is at most the corresponding signal of `b`. */
  predicate SignalsLe(a: RiskSignals, b: RiskSignals) {
    && (a.ipSoftLimited ==> b.ipSoftLimited)
    && (a.emailLimited ==> b.emailLimited)
    && a.emailFailuresLastHour <= b.emailFailuresLastHour
    && a.ipFailuresLastHour <= b.ipFailuresLastHour
    && a.uaFailuresLastHour <= b.uaFailuresLastHour
  }

  /** Raising any signal never lowers the score, the delay or the verdict. */
  lemma DecideRiskMonotone(a: RiskSignals, b: RiskSignals)
    requires SignalsLe(a, b)
    ensures DecideRisk(a).score <= DecideRisk(b).score
    ensures DecideRisk(a).softDelayMs <= DecideRisk(b).softDelayMs
    ensures DecideRisk(a).hardBlock ==> DecideRisk(b).hardBlock
  {
    FailurePointsMonotone(a.emailFailuresLastHour, b.emailFailuresLastHour, 5, 25);
    FailurePointsMonotone(a.ipFailuresLastHour, b.ipFailuresLastHour, 2, 25);
    FailurePointsMonotone(a.uaFailuresLastHour, b.uaFailuresLastHour, 3, 15);
  }

  lemma FailurePointsMonotone(m: nat, n: nat, per: nat, cap: nat)
    requires m <= n
    ensures FailurePoints(m, per, cap) <= FailurePoints(n, per, cap)
  {
    assert m * per <= n * per;
  }

  /** Without either rate-limit flag the score stays at most 65, so nothing is hard-blocked. */
  lemma NoFlagsNoHardBlock(s: RiskSignals)
    requires !s.ipSoftLimited && !s.emailLimited
    ensures DecideRisk(s).score <= 65
    ensures !DecideRisk(s).hardBlock
    ensures DecideRisk(s).softDelayMs <= 4000
  {
  }

  /** A hard block always involves at least one rate-limit flag. */
  lemma HardBlockNeedsAFlag(s: RiskSignals)
    requires DecideRisk(s).hardBlock
    ensures s.ipSoftLimited || s.emailLimited
  {
    if !s.ipSoftLimited && !s.emailLimited {
      NoFlagsNoHardBlock(s);
    }
  }

  /** Heavy shared-IP activity alone delays the request but does not block it. */
  lemma IpSoftLimitAloneDelays(s: RiskSignals)
    requires s.ipSoftLimited && !s.emailLimited
    requires s.emailFailuresLastHour == 0 && s.ipFailuresLastHour == 0 && s.uaFailuresLastHour == 0
    ensures DecideRisk(s).softDelayMs == 1600
    ensures !DecideRisk(s).hardBlock
  {
  }

  /** The combined abusive signals hard-block. */
  lemma CombinedAbuseHardBlocks()
    ensures DecideRisk(RiskSignals(true, true, 10, 30, 10)).score >= 95
    ensures DecideRisk(RiskSignals(true, true, 10, 30, 10)).hardBlock
  {
  }

  /**
   * The IP flag with saturated failure counts reaches the cap and blocks
   * even though the e-mail flag is off.
   */
  lemma IpSoftLimitWithFailuresHardBlocks(s: RiskSignals)
    requires s.ipSoftLimited && !s.emailLimited
    requires s.emailFailuresLastHour >= 5 && s.ipFailuresLastHour >= 13 && s.uaFailuresLastHour >= 5
    ensures DecideRisk(s).score == 100
    ensures DecideRisk(s).hardBlock
  {
    assert EmailFailurePoints(s) == 25;
    assert IpFailurePoints(s) == 25;
    assert UaFailurePoints(s) == 15;
  }
}
