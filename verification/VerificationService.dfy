/** Sending and checking codes as the service does it, on challenge and mail rows updated in place. */
module VerificationService {
  import opened Common
  import opened UnitOfWork
  import opened VerificationCodes

  // What the service knows about a request before it touches a challenge.
  datatype Gate = Gate(addressOk: bool, required: bool, domainAllowed: bool, configured: bool)

  // A code as generated by the caller's random source, and a nonce for the digest that hides an account.
  datatype Draw = Draw(code: Code, nonce: nat)

  class AuthCodes {
    var challenges: map<Key, Challenge>
    var mails: map<Key, seq<Mail>>
    ghost var logs: map<Key, seq<Entry>>

    constructor ()
      ensures forall key :: Contents(key) == NEW_ACCOUNT
    {
      challenges, mails, logs := map[], map[], map[];
    }

    ghost function Contents(key: Key): Account
      reads this
    {
      Account(if key in challenges then Some(challenges[key]) else None,
              MailsOf(key),
              if key in logs then logs[key] else [],
              [])
    }

    function MailsOf(key: Key): seq<Mail>
      reads this
    {
      if key in mails then mails[key] else []
    }

    twostate predicate OthersUnchanged(key: Key)
      reads this
    {
      forall k :: k != key ==> Contents(k) == old(Contents(k))
    }

    /** Checks the cool-down and the window; the window restarts in the caller's copy only. */
    method EnforceRate(challenge: Challenge, now: Time) returns (r: Result<Challenge, int>)
      ensures r == EnforceSendRate(challenge, now)
    {
      if challenge.lastSent.Some? {
        var remaining := SEND_COOLDOWN - (now - challenge.lastSent.value);
        if remaining > 0 { return Err(RetryAfter(remaining)); }
      }
      var c := challenge;
      if now - c.windowStart >= SEND_WINDOW {
        c := c.(windowStart := now);
        c := c.(count := 0);
      }
      if c.count >= MAX_SENDS { return Err(RetryAfter(SEND_WINDOW - (now - c.windowStart))); }
      return Ok(c);
    }

    /** Writes the challenge and clears the plaintexts it does not back any more. */
    method SaveState(key: Key, challenge: Challenge, now: Time)
      modifies this`challenges, this`mails
      ensures Contents(key) == Saved(old(Contents(key)), challenge, now) && OthersUnchanged(key)
    {
      challenges := challenges[key := challenge];
      var open := challenge.consumed.None? && challenge.expiresAt > now && challenge.failed < 5;
      mails := mails[key := Cleared(MailsOf(key), open, challenge.digest)];
    }

    method Enqueue(key: Key, digest: Digest, code: Code, now: Time)
      modifies this`mails
      ensures Contents(key) == Posted(old(Contents(key)), digest, Some(code), now) && OthersUnchanged(key)
    {
      mails := mails[key := MailsOf(key) + [NewMail(digest, code, now)]];
    }

    ghost method Note(key: Key, e: Entry)
      modifies this`logs
      ensures Contents(key) == old(Contents(key)).(log := old(Contents(key)).log + [e]) && OthersUnchanged(key)
    {
      logs := logs[key := (if key in logs then logs[key] else []) + [e]];
    }

    /** The part of both send operations that follows the rate check. */
    method RenewAndPost(key: Key, checked: Challenge, mailed: bool, draw: Draw, now: Time)
      modifies this
      ensures var code := if mailed then Some(draw.code) else None;
        var digest := DigestFor(key, code, draw.nonce);
        var renewed := Renewed(checked, digest, now);
        Contents(key) == Posted(Saved(old(Contents(key)), renewed, now), digest, code, now)
                         .(log := old(Contents(key)).log + [Accepted(now, renewed.windowStart, renewed.count)])
      ensures OthersUnchanged(key)
    {
      var challenge := checked;
      challenge := challenge.(digest := if mailed then OfCode(key, draw.code) else Random(draw.nonce));
      challenge := challenge.(expiresAt := now + CODE_TTL);
      challenge := challenge.(lastSent := Some(now));
      challenge := challenge.(count := challenge.count + 1);
      challenge := challenge.(failed := 0);
      challenge := challenge.(consumed := None);
      SaveState(key, challenge, now);
      if mailed { Enqueue(key, challenge.digest, draw.code, now); }
      Note(key, Accepted(now, challenge.windowStart, challenge.count));
    }

    /** A registered address gets a digest nobody knows instead of a mail. */
    method SendVerificationCode(email: nat, gate: Gate, registered: bool, draw: Draw, now: Time) returns (r: Response)
      modifies this
      ensures var key := Key(email, Registration);
        && OthersUnchanged(key)
        && if !gate.addressOk then r == ErrorResponse(422, false) && Contents(key) == old(Contents(key))
           else if !gate.required || !gate.domainAllowed then r == SUCCESS && Contents(key) == old(Contents(key))
           else if !gate.configured then r == ErrorResponse(503, false) && Contents(key) == old(Contents(key))
           else (Contents(key), r) ==
                Send(old(Contents(key)), key, now, if registered then None else Some(draw.code), draw.nonce)
    {
      if !gate.addressOk { return ErrorResponse(422, false); }
      if !gate.required || !gate.domainAllowed { return SUCCESS; }
      if !gate.configured { return ErrorResponse(503, false); }
      var key := Key(email, Registration);
      var challenge := if key in challenges then challenges[key] else FreshChallenge(now);
      var checked := EnforceRate(challenge, now);
      if checked.Err? { return ErrorResponse(429, false); }
      RenewAndPost(key, checked.value, !registered, draw, now);
      return SUCCESS;
    }

    /** Whether the account exists shows neither in the response nor in a rate limit. */
    method SendPasswordResetCode(email: nat, gate: Gate, exists_: bool, draw: Draw, now: Time) returns (r: Response)
      modifies this
      ensures var key := Key(email, PasswordReset);
        && OthersUnchanged(key)
        && if !gate.addressOk then r == ErrorResponse(422, false) && Contents(key) == old(Contents(key))
           else if !gate.required || !gate.configured then
             r == ErrorResponse(503, false) && Contents(key) == old(Contents(key))
           else (Contents(key), r) ==
                Send(old(Contents(key)), key, now, if exists_ then Some(draw.code) else None, draw.nonce)
    {
      if !gate.addressOk { return ErrorResponse(422, false); }
      if !gate.required || !gate.configured { return ErrorResponse(503, false); }
      var key := Key(email, PasswordReset);
      var challenge := if key in challenges then challenges[key] else FreshChallenge(now);
      var checked := EnforceRate(challenge, now);
      if checked.Err? { return SUCCESS; }
      RenewAndPost(key, checked.value, exists_, draw, now);
      return SUCCESS;
    }

    method ConsumeVerification(key: Key, code: Code, now: Time) returns (reply: GuessReply)
      modifies this
      ensures (Contents(key), reply) == Guess(old(Contents(key)), key, now, code) && OthersUnchanged(key)
    {
      if key !in challenges { return Refused; }
      var challenge := challenges[key];
      if challenge.consumed.Some? || challenge.expiresAt <= now || challenge.failed >= MAX_FAILED { return Refused; }
      if challenge.digest != OfCode(key, code) {
        challenge := challenge.(failed := challenge.failed + 1);
        SaveState(key, challenge, now);
        Note(key, Wrong(now));
        return Mismatch;
      }
      challenge := challenge.(consumed := Some(now));
      SaveState(key, challenge, now);
      Note(key, Consumed(now));
      return Match;
    }

    /** A whole request that presents a code, with its transaction: what is not committed is undone. */
    method HandleCode(key: Key, code: Code, now: Time, rest: int) returns (r: Response)
      modifies this
      ensures Contents(key) == Present(old(Contents(key)), key, now, code, rest, true) && OthersUnchanged(key)
      ensures r == GuessResponse(Guess(old(Contents(key)), key, now, code).1, rest, true)
    {
      var before, beforeMails := challenges, mails;
      ghost var beforeLogs := logs;
      var reply := ConsumeVerification(key, code, now);
      r := GuessResponse(reply, rest, true);
      if Failed(r) && !ShouldCommitError(r) {
        challenges, mails := before, beforeMails;
        logs := beforeLogs;
      }
    }
  }
}
