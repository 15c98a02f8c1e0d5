/** The lifetime of plaintext codes in the mail outbox. */
module VerificationMail {
  import opened Common
  import opened VerificationCodes

  /** A plaintext is the code of the challenge's current digest, and the challenge is still open. */
  predicate Current(challenge: Option<Challenge>, key: Key, m: Mail) {
    m.code.Some? ==>
      && challenge.Some?
      && m.digest == challenge.value.digest == OfCode(key, m.code.value)
      && challenge.value.consumed.None? && challenge.value.failed < MAX_FAILED
  }

  predicate Shaped(m: Mail) {
    && (Terminal(m.state) <==> m.next.None?)
    && (m.state.Sending? <==> m.lease.Some?)
    && (m.state.Canceled? || m.state.DeadLetter? ==> m.code.None?)
  }

  ghost predicate MailInv(a: Account, key: Key) {
    forall k :: 0 <= k < |a.mails| ==> Current(a.challenge, key, a.mails[k]) && Shaped(a.mails[k])
  }

  /** Saving a challenge leaves no plaintext behind that is not for it. */
  lemma SavedKeepsMails(a: Account, key: Key, c: Challenge, now: Time)
    requires MailInv(a, key)
    ensures MailInv(Saved(a, c, now), key)
  {
    var b := Saved(a, c, now);
    forall k | 0 <= k < |b.mails|
      ensures Current(b.challenge, key, b.mails[k]) && Shaped(b.mails[k])
    {
      assert Current(a.challenge, key, a.mails[k]) && Shaped(a.mails[k]);
    }
  }

  lemma SendKeepsMails(a: Account, key: Key, now: Time, code: Option<Code>, nonce: nat)
    requires MailInv(a, key)
    ensures MailInv(Send(a, key, now, code, nonce).0, key)
  {
    var c := EnforceSendRate(Locked(a, now), now);
    if c.Ok? {
      SavedKeepsMails(a, key, Renewed(c.value, DigestFor(key, code, nonce), now), now);
    }
  }

  lemma PresentKeepsMails(a: Account, key: Key, now: Time, code: Code, rest: int)
    requires MailInv(a, key)
    ensures MailInv(Present(a, key, now, code, rest, true), key)
  {
    PresentCases(a, key, now, code, rest);
    if a.challenge.Some? {
      var c := a.challenge.value;
      SavedKeepsMails(a, key, c.(failed := c.failed + 1), now);
      SavedKeepsMails(a, key, c.(consumed := Some(now)), now);
    }
  }

  lemma StepKeepsMails(a: Account, key: Key, e: Event)
    requires MailInv(a, key)
    ensures MailInv(Step(a, key, e), key)
  {
    match e
    case SendCode(now, code, nonce) => SendKeepsMails(a, key, now, code, nonce);
    case PresentCode(now, code, rest) => PresentKeepsMails(a, key, now, code, rest);
    case _ =>
  }

  lemma {:induction false} RunKeepsMails(key: Key, events: seq<Event>)
    ensures MailInv(Run(NEW_ACCOUNT, key, events), key)
  {
    if events == [] {
    } else {
      RunKeepsMails(key, events[..|events| - 1]);
      StepKeepsMails(Run(NEW_ACCOUNT, key, events[..|events| - 1]), key, events[|events| - 1]);
    }
  }

  /**
   * In every committed state, a delivery that still holds a plaintext holds the code of its challenge's current digest,
   * and that challenge is neither consumed nor guessed wrong five times.
   */
  lemma PlaintextIsCurrent(key: Key, events: seq<Event>, k: nat)
    requires k < |Run(NEW_ACCOUNT, key, events).mails| && Run(NEW_ACCOUNT, key, events).mails[k].code.Some?
    ensures var a := Run(NEW_ACCOUNT, key, events);
      && a.challenge.Some?
      && a.challenge.value.digest == a.mails[k].digest == OfCode(key, a.mails[k].code.value)
      && a.challenge.value.consumed.None? && a.challenge.value.failed < MAX_FAILED
  {
    RunKeepsMails(key, events);
    assert Current(Run(NEW_ACCOUNT, key, events).challenge, key, Run(NEW_ACCOUNT, key, events).mails[k]);
  }

  // A worker hands a code to the sender only after a refresh that still shows one.
  function HandedOver(r: Refreshed): Option<Code> { if r.current then r.mail.code else None }

  /**
   * Whatever happened since the claim, a code handed to the sender is owned by this worker's lease at its refresh and
   * is one that would be accepted there and then.
   */
  lemma HandedOverIsValid(key: Key, events: seq<Event>, k: nat, token: Token, now: Time, userLive: bool)
    requires var r := RefreshClaim(Run(NEW_ACCOUNT, key, events), key, k, token, now, userLive);
      r.Some? && HandedOver(r.value).Some?
    ensures var a := Run(NEW_ACCOUNT, key, events);
      var code := HandedOver(RefreshClaim(a, key, k, token, now, userLive).value).value;
      && k < |a.mails| && Owns(a.mails[k], token) && a.mails[k].lease.value.until > now
      && Guess(a, key, now, code).1 == Match
      && (key.purpose.PasswordReset? ==> userLive)
  {
    RunKeepsMails(key, events);
    assert Current(Run(NEW_ACCOUNT, key, events).challenge, key, Run(NEW_ACCOUNT, key, events).mails[k]);
  }

  // ---- Ended deliveries stay ended -------------------------------------------------

  // Only a plaintext may still be cleared.
  predicate SameEnd(m: Mail, n: Mail) { n == m || n == m.(code := None) }

  ghost predicate Lasting(a: Account, b: Account) {
    && |a.mails| <= |b.mails|
    && forall k :: 0 <= k < |a.mails| && Terminal(a.mails[k].state) ==> SameEnd(a.mails[k], b.mails[k])
  }

  lemma StepLasts(a: Account, key: Key, e: Event)
    ensures Lasting(a, Step(a, key, e))
  {
  }

  lemma {:induction false} EndedStaysEnded(a: Account, key: Key, events: seq<Event>)
    ensures Lasting(a, Run(a, key, events))
  {
    if events == [] {
    } else {
      var before := Run(a, key, events[..|events| - 1]);
      EndedStaysEnded(a, key, events[..|events| - 1]);
      StepLasts(before, key, events[|events| - 1]);
      var after := Run(a, key, events);
      forall k | 0 <= k < |a.mails| && Terminal(a.mails[k].state)
        ensures SameEnd(a.mails[k], after.mails[k])
      {
        assert SameEnd(a.mails[k], before.mails[k]);
        assert SameEnd(before.mails[k], after.mails[k]);
      }
    }
  }

  /** Every mail that is sent was accepted by the provider, from the worker that marked it. */
  lemma {:induction false} EverySentWasAccepted(key: Key, events: seq<Event>, k: nat)
    requires k < |Run(NEW_ACCOUNT, key, events).mails| && Run(NEW_ACCOUNT, key, events).mails[k].state.Sent?
    ensures exists token :: Answer(k, token, true) in Run(NEW_ACCOUNT, key, events).answers
  {
    var before, e := events[..|events| - 1], events[|events| - 1];
    var a, b := Run(NEW_ACCOUNT, key, before), Run(NEW_ACCOUNT, key, events);
    SentByFinish(a, key, e, k);
    if k < |a.mails| && a.mails[k].state.Sent? {
      EverySentWasAccepted(key, before, k);
      var token :| Answer(k, token, true) in a.answers;
      assert Answer(k, token, true) in b.answers;
    } else {
      assert Answer(k, e.token, true) in b.answers;
    }
  }

  // Only the write of a worker the provider said yes to makes a mail sent, and no answer is forgotten.
  lemma SentByFinish(a: Account, key: Key, e: Event, k: nat)
    requires k < |Step(a, key, e).mails| && Step(a, key, e).mails[k].state.Sent?
    ensures a.answers <= Step(a, key, e).answers
    ensures (k < |a.mails| && a.mails[k].state.Sent?)
      || (e.Finish? && e.mail == k && Answer(k, e.token, true) in a.answers)
  {
  }

  // ---- A worker's own claim ----------------------------------------------------------

  // Events of others: they neither claim nor finish with this token.
  predicate Foreign(e: Event, token: Token) {
    && (e.Claim? ==> e.token != token)
    && (e.Reply? ==> e.token != token)
    && (e.Finish? ==> e.token != token)
  }

  /** While others act, a row this worker still owns keeps the attempts and digest it had; once lost, it stays lost. */
  ghost predicate Held(m: Mail, n: Mail, token: Token) {
    Owns(n, token) ==> Owns(m, token) && n.attempts == m.attempts && n.digest == m.digest && n.lease == m.lease
  }

  lemma ForeignStepHolds(a: Account, key: Key, e: Event, token: Token, k: nat)
    requires Foreign(e, token) && k < |a.mails|
    ensures k < |Step(a, key, e).mails| && Held(a.mails[k], Step(a, key, e).mails[k], token)
  {
  }

  lemma {:induction false} ForeignRunHolds(a: Account, key: Key, events: seq<Event>, token: Token, k: nat)
    requires k < |a.mails| && forall n :: 0 <= n < |events| ==> Foreign(events[n], token)
    ensures k < |Run(a, key, events).mails| && Held(a.mails[k], Run(a, key, events).mails[k], token)
  {
    if events == [] {
    } else {
      var last := |events| - 1;
      ForeignRunHolds(a, key, events[..last], token, k);
      ForeignStepHolds(Run(a, key, events[..last]), key, events[last], token, k);
    }
  }
}
