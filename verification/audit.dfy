/** The audit log (`src/lib/auth/audit.ts`): every call appends one event. */
module Audit {
  import opened Wrappers
  import opened Store

  /** `AuditEventInput`: everything but the type and the outcome may be left out. */
  datatype AuditEventInput = AuditEventInput(
    eventType: AuthEventType,
    outcome: AuthOutcome,
    email: Option<string>,
    actorUserId: Option<nat>,
    ipHash: Option<string>,
    userAgentHash: Option<string>,
    riskScore: Option<int>,
    reason: Option<string>)

  /** The row `logAuthEvent` writes: type and outcome verbatim, absent fields null, an absent score 0. */
  function EventRecord(input: AuditEventInput): (e: AuthEvent)
    ensures e.eventType == input.eventType && e.outcome == input.outcome
    ensures e.email == input.email && e.actorUserId == input.actorUserId
    ensures e.ipHash == input.ipHash && e.userAgentHash == input.userAgentHash
    ensures input.riskScore.None? ==> e.riskScore == 0
    ensures input.riskScore.Some? ==> e.riskScore == input.riskScore.value
    ensures e.reason == input.reason
  {
    AuthEvent(input.eventType, input.outcome, input.email, input.actorUserId, input.ipHash,
              input.userAgentHash, input.riskScore.GetOr(0), input.reason)
  }

  /** `logAuthEvent`: append one event; earlier events and the other tables stay as they were. */
  method LogAuthEvent(db: AuthDb, input: AuditEventInput)
    modifies db
    ensures db.events == old(db.events) + [EventRecord(input)]
    ensures db.users == old(db.users) && db.otpCodes == old(db.otpCodes)
    ensures db.sessions == old(db.sessions) && db.allowedEmails == old(db.allowedEmails)
    ensures db.Valid() == old(db.Valid())
  {
    db.events := db.events + [EventRecord(input)];
  }
}
