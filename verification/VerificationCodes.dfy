/** Verification codes of one address and purpose, and the e-mails that carry them. */
module VerificationCodes {
  import opened Common
  import opened UnitOfWork

  type Time = int       // nanoseconds
  type Code = nat
  type Token = nat

  const SECOND := 1_000_000_000
  const CODE_TTL := 600 * SECOND
  const SEND_COOLDOWN := 60 * SECOND
  const SEND_WINDOW := 3600 * SECOND
  const MAX_SENDS := 5
  const MAX_FAILED := 5

  datatype Purpose = Registration | PasswordReset

  // The folded address and the purpose name a challenge.
  datatype Key = Key(email: nat, purpose: Purpose)

  // HMAC digests are taken to be injective, and random ones to match no code.
  datatype Digest = Zero | OfCode(key: Key, code: Code) | Random(nonce: nat)

  datatype Challenge = Challenge(
    digest: Digest,
    expiresAt: Time,
    lastSent: Option<Time>,
    windowStart: Time,
    count: int,
    failed: int,
    consumed: Option<Time>)

  datatype MailState = Queued | Sending | Sent | Canceled | DeadLetter

  datatype MailError = StaleChallenge | ProviderError | DeliveryExhausted

  datatype MailLease = MailLease(token: Token, until: Time)

  datatype Mail = Mail(
    digest: Digest,
    code: Option<Code>,
    state: MailState,
    attempts: nat,
    next: Option<Time>,
    lease: Option<MailLease>,
    lastError: Option<MailError>)

  // What happened, in the order of commits. A wrong guess is listed even if its write is undone.
  datatype Entry =
    | Accepted(at: Time, window: Time, ordinal: int)
    | Wrong(at: Time)
    | Consumed(at: Time)

  // What the mail provider answered to a worker that handed over the code of a mail.
  datatype Answer = Answer(mail: nat, token: Token, accepted: bool)

  datatype Account = Account(challenge: Option<Challenge>, mails: seq<Mail>, log: seq<Entry>, answers: seq<Answer>)

  const NEW_ACCOUNT := Account(None, [], [], [])

  // Seconds to wait, for the Retry-After header: rounded up, at least one.
  function RetryAfter(remaining: int): (s: int)
    ensures s >= 1 && s * SECOND >= remaining
    ensures remaining > 0 ==> (s - 1) * SECOND < remaining
  {
    Max(1, (remaining + SECOND - 1) / SECOND)
  }

  function EnforceSendRate(c: Challenge, now: Time): Result<Challenge, int> {
    if c.lastSent.Some? && SEND_COOLDOWN - (now - c.lastSent.value) > 0 then
      Err(RetryAfter(SEND_COOLDOWN - (now - c.lastSent.value)))
    else
      var current := if now - c.windowStart >= SEND_WINDOW then c.(windowStart := now, count := 0) else c;
      if current.count >= MAX_SENDS then Err(RetryAfter(SEND_WINDOW - (now - current.windowStart)))
      else Ok(current)
  }

  predicate Usable(c: Challenge, now: Time) { c.consumed.None? && c.expiresAt > now && c.failed < MAX_FAILED }

  // Plaintexts stay only for a usable challenge, and only those of its current digest.
  function Cleared(mails: seq<Mail>, usable: bool, digest: Digest): (r: seq<Mail>)
    ensures |r| == |mails|
    ensures forall k :: 0 <= k < |mails| ==>
      r[k] == if usable && mails[k].digest == digest then mails[k] else mails[k].(code := None)
  {
    seq(|mails|, k requires 0 <= k < |mails| =>
          if usable && mails[k].digest == digest then mails[k] else mails[k].(code := None))
  }

  /** SaveState: the challenge, and the plaintexts that are not for it any more. */
  function Saved(a: Account, c: Challenge, now: Time): Account {
    a.(challenge := Some(c), mails := Cleared(a.mails, Usable(c, now), c.digest))
  }

  function FreshChallenge(now: Time): Challenge { Challenge(Zero, now, None, now, 0, 0, None) }

  // LockOrCreate
  function Locked(a: Account, now: Time): Challenge {
    if a.challenge.Some? then a.challenge.value else FreshChallenge(now)
  }

  function Renewed(c: Challenge, digest: Digest, now: Time): Challenge {
    c.(digest := digest, expiresAt := now + CODE_TTL, lastSent := Some(now), count := c.count + 1,
       failed := 0, consumed := None)
  }

  function NewMail(digest: Digest, code: Code, now: Time): Mail {
    Mail(digest, Some(code), Queued, 0, Some(now), None, None)
  }

  function Posted(a: Account, digest: Digest, code: Option<Code>, now: Time): Account {
    if code.Some? then a.(mails := a.mails + [NewMail(digest, code.value, now)]) else a
  }

  // A code is mailed, or, where the account must not be revealed, a digest nobody knows is stored instead.
  function DigestFor(key: Key, code: Option<Code>, nonce: nat): Digest {
    if code.Some? then OfCode(key, code.value) else Random(nonce)
  }

  /** Sending a code: registration reports a rate limit, a password reset answers as if it had sent. */
  function Send(a: Account, key: Key, now: Time, code: Option<Code>, nonce: nat): (Account, Response) {
    match EnforceSendRate(Locked(a, now), now)
    case Err(_) => (a, if key.purpose.Registration? then ErrorResponse(429, false) else SUCCESS)
    case Ok(c) =>
      var digest := DigestFor(key, code, nonce);
      var renewed := Renewed(c, digest, now);
      var posted := Posted(Saved(a, renewed, now), digest, code, now);
      (posted.(log := a.log + [Accepted(now, renewed.windowStart, renewed.count)]), SUCCESS)
  }

  // consumeVerification, and whether its own error must be committed.
  datatype GuessReply = Refused | Mismatch | Match

  function Guess(a: Account, key: Key, now: Time, code: Code): (Account, GuessReply) {
    if a.challenge.None? || !Usable(a.challenge.value, now) then (a, Refused)
    else
      var c := a.challenge.value;
      if c.digest != OfCode(key, code)
      then (Saved(a, c.(failed := c.failed + 1), now).(log := a.log + [Wrong(now)]), Mismatch)
      else (Saved(a, c.(consumed := Some(now)), now).(log := a.log + [Consumed(now)]), Match)
  }

  // The rest of the request decides its response once the code matched; rest is its status.
  function GuessResponse(reply: GuessReply, rest: int, persist: bool): Response {
    match reply
    case Refused => ErrorResponse(400, false)
    case Mismatch => ErrorResponse(400, persist)
    case Match => if rest >= 400 then ErrorResponse(rest, false) else SUCCESS
  }

  /** A request that presents a code. With `persist` false, the failed attempt would not outlive the 400. */
  function Present(a: Account, key: Key, now: Time, code: Code, rest: int, persist: bool): Account {
    var (after, reply) := Guess(a, key, now, code);
    if Commits(GuessResponse(reply, rest, persist)) then after
    else if reply.Mismatch? then a.(log := after.log)
    else a
  }

  function WrongGuess(a: Account, now: Time): Account
    requires a.challenge.Some?
  {
    Saved(a, a.challenge.value.(failed := a.challenge.value.failed + 1), now).(log := a.log + [Wrong(now)])
  }

  function RightGuess(a: Account, now: Time): Account
    requires a.challenge.Some?
  {
    Saved(a, a.challenge.value.(consumed := Some(now)), now).(log := a.log + [Consumed(now)])
  }

  /** Only a guess at a usable challenge changes anything, and a right one only with the rest of its request. */
  lemma PresentCases(a: Account, key: Key, now: Time, code: Code, rest: int)
    ensures var after := Present(a, key, now, code, rest, true);
      if a.challenge.None? || !Usable(a.challenge.value, now) then after == a
      else if a.challenge.value.digest != OfCode(key, code) then after == WrongGuess(a, now)
      else after == if rest >= 400 then a else RightGuess(a, now)
  {
  }

  // ---- The mail outbox --------------------------------------------------------

  predicate Terminal(s: MailState) { s.Sent? || s.Canceled? || s.DeadLetter? }

  predicate Invalid(a: Account, m: Mail, now: Time) {
    a.challenge.Some? && m.code.Some? && (!Usable(a.challenge.value, now) || a.challenge.value.digest != m.digest)
  }

  // At most `limit` of the invalid rows are cleared; which ones depends on locks.
  function ClearInvalid(a: Account, now: Time, picks: set<nat>): Account {
    a.(mails := seq(|a.mails|, k requires 0 <= k < |a.mails| =>
                  if k in picks && Invalid(a, a.mails[k], now) then a.mails[k].(code := None) else a.mails[k]))
  }

  predicate MailDue(m: Mail, now: Time) {
    && (m.state.Queued? || m.state.Sending?)
    && m.next.Some? && m.next.value <= now
    && (m.lease.None? || m.lease.value.until <= now)
  }

  function ClaimedMail(m: Mail, token: Token, until: Time): Mail {
    m.(state := Sending, lease := Some(MailLease(token, until)))
  }

  function ClaimMails(a: Account, picks: set<nat>, now: Time, token: Token, until: Time): Account {
    a.(mails := seq(|a.mails|, k requires 0 <= k < |a.mails| =>
                  if k in picks && MailDue(a.mails[k], now) then ClaimedMail(a.mails[k], token, until) else a.mails[k]))
  }

  predicate Owns(m: Mail, token: Token) { m.state.Sending? && m.lease.Some? && m.lease.value.token == token }

  // The CASE expression of a claim or refresh: the challenge's digest if the code may still be sent.
  predicate StillCurrent(a: Account, key: Key, m: Mail, now: Time, userLive: bool) {
    && a.challenge.Some? && a.challenge.value.digest == m.digest && Usable(a.challenge.value, now)
    && (key.purpose.PasswordReset? ==> userLive)
  }

  // A refreshed row, as the worker sees it. None: the lease is lost.
  datatype Refreshed = Refreshed(mail: Mail, current: bool)

  function RefreshClaim(a: Account, key: Key, k: nat, token: Token, now: Time, userLive: bool): Option<Refreshed> {
    if k < |a.mails| && Owns(a.mails[k], token) && a.mails[k].lease.value.until > now
    then Some(Refreshed(a.mails[k], StillCurrent(a, key, a.mails[k], now, userLive)))
    else None
  }

  // The four ways a claim ends.
  datatype MailUpdate = Cancel | MarkSent | Reschedule(attempts: nat, next: Time) | Exhaust(attempts: nat)

  function Updated(m: Mail, u: MailUpdate): Mail {
    match u
    case Cancel => m.(state := Canceled, lease := None, next := None, lastError := Some(StaleChallenge), code := None)
    case MarkSent => m.(state := Sent, lease := None, next := None, lastError := None)
    case Reschedule(attempts, next) =>
      m.(state := Queued, attempts := attempts, next := Some(next), lease := None, lastError := Some(ProviderError))
    case Exhaust(attempts) =>
      m.(state := DeadLetter, attempts := attempts, next := None, lease := None,
         lastError := Some(DeliveryExhausted), code := None)
  }

  // UpdateClaim
  function UpdateMail(a: Account, k: nat, token: Token, u: MailUpdate): Account {
    if k < |a.mails| && Owns(a.mails[k], token) then a.(mails := a.mails[k := Updated(a.mails[k], u)]) else a
  }

  // ---- Runs -------------------------------------------------------------------

  datatype Event =
    | SendCode(now: Time, mailed: Option<Code>, nonce: nat)
    | PresentCode(now: Time, guess: Code, rest: int)
    | Clear(now: Time, picks: set<nat>)
    | Claim(picks: set<nat>, now: Time, token: Token, until: Time)
    | Reply(mail: nat, token: Token, accepted: bool)
    | Finish(mail: nat, token: Token, update: MailUpdate)

  // The order within a worker: it reports a mail as sent, or as failed, only after the provider has said so.
  predicate MayFinish(a: Account, k: nat, token: Token, u: MailUpdate) {
    match u
    case Cancel => true
    case MarkSent => Answer(k, token, true) in a.answers
    case _ => Answer(k, token, false) in a.answers
  }

  function Step(a: Account, key: Key, e: Event): Account {
    match e
    case SendCode(now, code, nonce) => Send(a, key, now, code, nonce).0
    case PresentCode(now, code, rest) => Present(a, key, now, code, rest, true)
    case Clear(now, picks) => ClearInvalid(a, now, picks)
    case Claim(picks, now, token, until) => ClaimMails(a, picks, now, token, until)
    case Reply(k, token, accepted) => a.(answers := a.answers + [Answer(k, token, accepted)])
    case Finish(k, token, u) => if MayFinish(a, k, token, u) then UpdateMail(a, k, token, u) else a
  }

  function Run(a: Account, key: Key, events: seq<Event>): Account {
    if events == [] then a else Step(Run(a, key, events[..|events| - 1]), key, events[|events| - 1])
  }
}
