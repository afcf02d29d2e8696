/**
 * The authentication tables: users, one-time codes, sessions, the audit
 * event log and the allow-list. A row's id is its position in its table.
 */
module Store {
  import opened Wrappers

  datatype Role = Member | Referee | Admin

  datatype User = User(email: string, role: Role, name: Option<string>)

  datatype OtpCode = OtpCode(
    email: string,
    codeHash: string,
    expiresAt: int,
    attemptCount: nat,
    consumedAt: Option<int>,
    createdAt: int)

  datatype SessionRow = SessionRow(
    userId: nat,
    expiresAt: int,
    ipHash: Option<string>,
    userAgentHash: Option<string>,
    revokedAt: Option<int>)

  datatype AuthEventType = RequestCodeEvent | VerifyCodeEvent | LogoutEvent

  datatype AuthOutcome = Success | Failure | Blocked

  /** A row of the audit log; `reason` is the only key the code puts in `meta`. */
  datatype AuthEvent = AuthEvent(
    eventType: AuthEventType,
    outcome: AuthOutcome,
    email: Option<string>,
    actorUserId: Option<nat>,
    ipHash: Option<string>,
    userAgentHash: Option<string>,
    riskScore: int,
    reason: Option<string>)

  /** An unconsumed code for `email`. */
  predicate IsOpenFor(c: OtpCode, email: string) {
    c.email == email && c.consumedAt.None?
  }

  /** At most one unconsumed code per address. */
  predicate OneOpenPerEmail(codes: seq<OtpCode>) {
    forall i, j | 0 <= i < j < |codes| ::
      !(codes[i].consumedAt.None? && codes[j].consumedAt.None? && codes[i].email == codes[j].email)
  }

  class AuthDb {
    var users: seq<User>
    var otpCodes: seq<OtpCode>
    var sessions: seq<SessionRow>
    var events: seq<AuthEvent>
    /** The normalised addresses of the active allow-list entries. */
    var allowedEmails: set<string>

    /**
     * What the schema guarantees: user e-mails are unique and every session
     * belongs to a user; and what the login routes maintain: at most one
     * unconsumed code per address.
     */
    ghost predicate Valid()
      reads this
    {
      && (forall i, j | 0 <= i < j < |users| :: users[i].email != users[j].email)
      && (forall i | 0 <= i < |sessions| :: sessions[i].userId < |users|)
      && OneOpenPerEmail(otpCodes)
    }

    constructor(allowed: set<string>)
      ensures Valid()
      ensures users == [] && otpCodes == [] && sessions == [] && events == []
      ensures allowedEmails == allowed
    {
      users := [];
      otpCodes := [];
      sessions := [];
      events := [];
      allowedEmails := allowed;
    }
  }
}
