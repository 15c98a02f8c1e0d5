/** When a presented code is accepted, in terms of what was sent and presented before: no challenge row is consulted. */
module VerificationExpiry {
  import opened Common
  import opened UnitOfWork
  import opened VerificationCodes
  import opened VerificationRate
  import opened VerificationGuesses
  import opened VerificationMail

  const TEN_MINUTES := 600 * SECOND

  /** The last accepted send. */
  function LastSend(log: seq<Entry>): (r: Option<Entry>)
    ensures r.Some? ==> r.value.Accepted? && r.value in log
  {
    if log == [] then None
    else if log[|log| - 1].Accepted? then Some(log[|log| - 1])
    else LastSend(log[..|log| - 1])
  }

  /** The code the last accepted send mailed; None inside: it mailed none, to hide whether the account exists. */
  function LastCode(key: Key, events: seq<Event>): Option<Option<Code>>
    decreases |events|
  {
    if events == [] then None
    else
      var before, e := events[..|events| - 1], events[|events| - 1];
      if e.SendCode? && Run(NEW_ACCOUNT, key, events).log != Run(NEW_ACCOUNT, key, before).log then Some(e.mailed)
      else LastCode(key, before)
  }

  /** A code was sent less than ten minutes ago, was guessed wrong fewer than five times and not consumed since. */
  predicate Open(log: seq<Entry>, t: Time) {
    LastSend(log).Some? && t < LastSend(log).value.at + TEN_MINUTES && WrongSince(log) < 5 && !ConsumedSince(log)
  }

  // The row knows all that.
  ghost predicate Reflects(challenge: Option<Challenge>, log: seq<Entry>, key: Key, code: Option<Option<Code>>) {
    && Counted(challenge, log)
    && (challenge.Some? <==> LastSend(log).Some?) && (challenge.Some? <==> code.Some?)
    && (challenge.Some? ==>
          && challenge.value.expiresAt == LastSend(log).value.at + TEN_MINUTES
          && forall c: Code :: challenge.value.digest == OfCode(key, c) <==> code.value == Some(c))
  }

  ghost predicate Reflected(key: Key, events: seq<Event>) {
    var a := Run(NEW_ACCOUNT, key, events);
    && Reflects(a.challenge, a.log, key, LastCode(key, events))
    && forall k :: 0 <= k < |a.mails| ==> a.mails[k].digest.OfCode? && a.mails[k].digest.key == key
  }

  lemma LastAppended(log: seq<Entry>, e: Entry)
    ensures LastSend(log + [e]) == if e.Accepted? then Some(e) else LastSend(log)
  {
    assert (log + [e])[..|log|] == log;
  }

  lemma RunOneMore(key: Key, events: seq<Event>, e: Event)
    ensures Run(NEW_ACCOUNT, key, events + [e]) == Step(Run(NEW_ACCOUNT, key, events), key, e)
    ensures LastCode(key, events + [e]) ==
      if e.SendCode? && Step(Run(NEW_ACCOUNT, key, events), key, e).log != Run(NEW_ACCOUNT, key, events).log
      then Some(e.mailed) else LastCode(key, events)
  {
    assert (events + [e])[..|events|] == events;
  }

  lemma OpenIsUsable(challenge: Option<Challenge>, log: seq<Entry>, key: Key, code: Option<Option<Code>>, t: Time)
    requires Reflects(challenge, log, key, code)
    ensures Open(log, t) <==> challenge.Some? && Usable(challenge.value, t)
  {
  }

  // ---- Presenting a code ------------------------------------------------------------

  /** What a request that presents a code adds to the log. */
  function Heard(open: bool, right: bool, t: Time, rest: int): seq<Entry> {
    if !open || (right && rest >= 400) then [] else if right then [Consumed(t)] else [Wrong(t)]
  }

  /** A plaintext is kept only while its code can still be presented. */
  function Kept(mails: seq<Mail>, open: bool, key: Key, code: Option<Option<Code>>): seq<Mail> {
    seq(|mails|, k requires 0 <= k < |mails| =>
          if open && mails[k].digest.OfCode? && mails[k].digest.key == key && code == Some(Some(mails[k].digest.code))
          then mails[k] else mails[k].(code := None))
  }

  lemma ClearedIsKept(mails: seq<Mail>, open: bool, digest: Digest, key: Key, code: Option<Option<Code>>)
    requires forall k :: 0 <= k < |mails| ==> mails[k].digest.OfCode? && mails[k].digest.key == key
    requires code.Some? && forall c: Code :: digest == OfCode(key, c) <==> code.value == Some(c)
    ensures Cleared(mails, open, digest) == Kept(mails, open, key, code)
  {
    forall k | 0 <= k < |mails|
      ensures Cleared(mails, open, digest)[k] == Kept(mails, open, key, code)[k]
    {
      assert mails[k].digest == OfCode(key, mails[k].digest.code);
    }
  }

  lemma PresentShape(a: Account, key: Key, t: Time, guess: Code, rest: int, code: Option<Option<Code>>)
    requires Reflects(a.challenge, a.log, key, code)
    requires forall k :: 0 <= k < |a.mails| ==> a.mails[k].digest.OfCode? && a.mails[k].digest.key == key
    ensures var b := Present(a, key, t, guess, rest, true);
      var heard := Heard(Open(a.log, t), code == Some(Some(guess)), t, rest);
      && b.log == a.log + heard
      && b.mails == (if heard == [] then a.mails else Kept(a.mails, Open(b.log, t), key, code))
      && Reflects(b.challenge, b.log, key, code)
  {
    OpenIsUsable(a.challenge, a.log, key, code, t);
    PresentCases(a, key, t, guess, rest);
    if Open(a.log, t) {
      var c := a.challenge.value;
      GuessCounted(c, a.log, t);
      PresentedReflects(c, a.log, key, code, t);
      ClearedIsKept(a.mails, Usable(c.(failed := c.failed + 1), t), c.digest, key, code);
      ClearedIsKept(a.mails, Usable(c.(consumed := Some(t)), t), c.digest, key, code);
      OpenIsUsable(Some(c.(failed := c.failed + 1)), a.log + [Wrong(t)], key, code, t);
      OpenIsUsable(Some(c.(consumed := Some(t))), a.log + [Consumed(t)], key, code, t);
    }
  }

  lemma PresentedReflects(c: Challenge, log: seq<Entry>, key: Key, code: Option<Option<Code>>, t: Time)
    requires Reflects(Some(c), log, key, code) && Usable(c, t)
    ensures Reflects(Some(c.(failed := c.failed + 1)), log + [Wrong(t)], key, code)
    ensures Reflects(Some(c.(consumed := Some(t))), log + [Consumed(t)], key, code)
  {
    GuessCounted(c, log, t);
    LastAppended(log, Wrong(t));
    LastAppended(log, Consumed(t));
  }

  // ---- Sending a code --------------------------------------------------------------------

  /** When the next send is accepted, and as the how-manieth of which window: only the last accepted send counts. */
  function NextSend(log: seq<Entry>, now: Time): Option<Entry> {
    match LastSend(log)
    case None => Some(Accepted(now, now, 1))
    case Some(last) =>
      if now < last.at + 60 * SECOND then None
      else if now >= last.window + 3600 * SECOND then Some(Accepted(now, now, 1))
      else if last.ordinal < 5 then Some(Accepted(now, last.window, last.ordinal + 1))
      else None
  }

  lemma RateFollowsLog(a: Account, now: Time)
    requires RateInv(a) && (a.challenge.Some? <==> LastSend(a.log).Some?)
    ensures match EnforceSendRate(Locked(a, now), now)
            case Err(_) => NextSend(a.log, now).None?
            case Ok(c) => NextSend(a.log, now) == Some(Accepted(now, c.windowStart, c.count + 1))
  {
    LastOfSends(a.log);
  }

  lemma {:induction false} LastOfSends(log: seq<Entry>)
    ensures LastSend(log) == if Sends(log) == [] then None else Some(Sends(log)[|Sends(log)| - 1])
  {
    if log != [] { LastOfSends(log[..|log| - 1]); }
  }

  lemma SendShape(a: Account, key: Key, now: Time, mailed: Option<Code>, nonce: nat, code: Option<Option<Code>>)
    requires Reflects(a.challenge, a.log, key, code) && RateInv(a)
    requires forall k :: 0 <= k < |a.mails| ==> a.mails[k].digest.OfCode? && a.mails[k].digest.key == key
    ensures var (b, reply) := Send(a, key, now, mailed, nonce);
      match NextSend(a.log, now)
      case None => b == a && reply == (if key.purpose.Registration? then ErrorResponse(429, false) else SUCCESS)
      case Some(e) =>
        && reply == SUCCESS && b.log == a.log + [e]
        && b.mails == Kept(a.mails, true, key, Some(mailed)) + Letter(key, mailed, now)
        && Reflects(b.challenge, b.log, key, Some(mailed))
  {
    RateFollowsLog(a, now);
    var (b, reply) := Send(a, key, now, mailed, nonce);
    if NextSend(a.log, now).Some? {
      ClearedIsKept(a.mails, true, DigestFor(key, mailed, nonce), key, Some(mailed));
      SentReflects(b.challenge, a.log, NextSend(a.log, now).value, key, mailed, nonce);
    }
  }

  // A renewed challenge reflects the send it is for.
  lemma SentReflects(
    challenge: Option<Challenge>, log: seq<Entry>, e: Entry, key: Key, mailed: Option<Code>, nonce: nat)
    requires e.Accepted? && challenge.Some? && challenge.value.digest == DigestFor(key, mailed, nonce)
    requires challenge.value.expiresAt == e.at + TEN_MINUTES
    requires challenge.value.failed == 0 && challenge.value.consumed.None? && GuardedLog(log)
    ensures Reflects(challenge, log + [e], key, Some(mailed))
  {
    LastAppended(log, e);
    Appended(log, e);
    GuardedAppend(log, e);
  }

  /** The mail an accepted send adds: queued at once, with its code. */
  function Letter(key: Key, mailed: Option<Code>, now: Time): seq<Mail> {
    match mailed
    case None => []
    case Some(c) => [Mail(OfCode(key, c), Some(c), Queued, 0, Some(now), None, None)]
  }

  // ---- Every run -----------------------------------------------------------------------------

  // The mail outbox changes neither the challenge nor what a mail is for.
  lemma OutboxReflects(a: Account, key: Key, e: Event)
    requires !e.SendCode? && !e.PresentCode?
    ensures var b := Step(a, key, e);
      && b.challenge == a.challenge && b.log == a.log && |b.mails| == |a.mails|
      && forall k :: 0 <= k < |a.mails| ==> b.mails[k].digest == a.mails[k].digest
  {
  }

  lemma SendReflects(key: Key, before: seq<Event>, now: Time, mailed: Option<Code>, nonce: nat)
    requires Reflected(key, before)
    ensures Reflected(key, before + [SendCode(now, mailed, nonce)])
  {
    RunOneMore(key, before, SendCode(now, mailed, nonce));
    RunKeepsRate(key, before);
    SendShape(Run(NEW_ACCOUNT, key, before), key, now, mailed, nonce, LastCode(key, before));
  }

  lemma PresentReflects(key: Key, before: seq<Event>, t: Time, guess: Code, rest: int)
    requires Reflected(key, before)
    ensures Reflected(key, before + [PresentCode(t, guess, rest)])
  {
    RunOneMore(key, before, PresentCode(t, guess, rest));
    PresentShape(Run(NEW_ACCOUNT, key, before), key, t, guess, rest, LastCode(key, before));
  }

  lemma StepReflects(key: Key, before: seq<Event>, e: Event)
    requires Reflected(key, before)
    ensures Reflected(key, before + [e])
  {
    match e
    case SendCode(now, mailed, nonce) => SendReflects(key, before, now, mailed, nonce);
    case PresentCode(t, guess, rest) => PresentReflects(key, before, t, guess, rest);
    case _ =>
      RunOneMore(key, before, e);
      OutboxReflects(Run(NEW_ACCOUNT, key, before), key, e);
  }

  lemma {:induction false} RunReflects(key: Key, events: seq<Event>)
    ensures Reflected(key, events)
  {
    if events != [] {
      var before, e := events[..|events| - 1], events[|events| - 1];
      assert events == before + [e];
      RunReflects(key, before);
      StepReflects(key, before, e);
    }
  }

  /**
   * In every reachable state a presented code is compared exactly if a code was sent less than ten minutes ago, was
   * guessed wrong fewer than five times and not consumed since; it is right exactly if it is the one that was mailed;
   * and a right one is consumed exactly if the rest of the request succeeds. The reply follows, and plaintexts of codes
   * that cannot be presented any more are gone.
   */
  lemma PresentExactly(key: Key, events: seq<Event>, t: Time, guess: Code, rest: int)
    ensures var a, b := Run(NEW_ACCOUNT, key, events), Run(NEW_ACCOUNT, key, events + [PresentCode(t, guess, rest)]);
      var open, right := Open(a.log, t), LastCode(key, events) == Some(Some(guess));
      && b.log == a.log + Heard(open, right, t, rest)
      && b.mails == (if b.log == a.log then a.mails else Kept(a.mails, Open(b.log, t), key, LastCode(key, events)))
      && GuessResponse(Guess(a, key, t, guess).1, rest, true) ==
         if !open then ErrorResponse(400, false)
         else if !right then ErrorResponse(400, true)
         else if rest >= 400 then ErrorResponse(rest, false)
         else SUCCESS
  {
    RunReflects(key, events);
    RunOneMore(key, events, PresentCode(t, guess, rest));
    var a := Run(NEW_ACCOUNT, key, events);
    PresentShape(a, key, t, guess, rest, LastCode(key, events));
    OpenIsUsable(a.challenge, a.log, key, LastCode(key, events), t);
  }

  /**
   * In every reachable state a send is accepted exactly by the last accepted one: a minute after it, and as one of five
   * of its hour or the first of a new one. It then mails its code, if it has one, and clears every other plaintext.
   */
  lemma SendExactly(key: Key, events: seq<Event>, now: Time, mailed: Option<Code>, nonce: nat)
    ensures var a, b := Run(NEW_ACCOUNT, key, events), Run(NEW_ACCOUNT, key, events + [SendCode(now, mailed, nonce)]);
      var reply := Send(a, key, now, mailed, nonce).1;
      match NextSend(a.log, now)
      case None => b == a && reply == (if key.purpose.Registration? then ErrorResponse(429, false) else SUCCESS)
      case Some(e) =>
        && reply == SUCCESS && b.log == a.log + [e]
        && b.mails == Kept(a.mails, true, key, Some(mailed)) + Letter(key, mailed, now)
  {
    RunReflects(key, events);
    RunKeepsRate(key, events);
    RunOneMore(key, events, SendCode(now, mailed, nonce));
    SendShape(Run(NEW_ACCOUNT, key, events), key, now, mailed, nonce, LastCode(key, events));
  }

  // One event adds one entry at most, and a guess only while a code is open.
  lemma LogGrows(key: Key, before: seq<Event>, e: Event) returns (more: seq<Entry>)
    ensures Run(NEW_ACCOUNT, key, before + [e]).log == Run(NEW_ACCOUNT, key, before).log + more && |more| <= 1
    ensures more != [] && !more[0].Accepted? ==> Open(Run(NEW_ACCOUNT, key, before).log, more[0].at)
  {
    var log := Run(NEW_ACCOUNT, key, before).log;
    match e
    case SendCode(now, mailed, nonce) =>
      SendExactly(key, before, now, mailed, nonce);
      more := if NextSend(log, now).Some? then [NextSend(log, now).value] else [];
    case PresentCode(t, guess, rest) =>
      PresentExactly(key, before, t, guess, rest);
      more := Heard(Open(log, t), LastCode(key, before) == Some(Some(guess)), t, rest);
    case _ =>
      RunOneMore(key, before, e);
      more := [];
  }

  /** Every compared code was sent less than ten minutes before, and was not used up. */
  lemma {:induction false} ComparedInTime(key: Key, events: seq<Event>, j: nat)
    requires j < |Run(NEW_ACCOUNT, key, events).log| && !Run(NEW_ACCOUNT, key, events).log[j].Accepted?
    ensures var log := Run(NEW_ACCOUNT, key, events).log; Open(log[..j], log[j].at)
    decreases |events|
  {
    if events != [] {
      var before, e := events[..|events| - 1], events[|events| - 1];
      assert events == before + [e];
      var more := LogGrows(key, before, e);
      var log := Run(NEW_ACCOUNT, key, before).log;
      if j < |log| {
        ComparedInTime(key, before, j);
        assert (log + more)[..j] == log[..j];
      } else {
        assert (log + more)[..j] == log;
      }
    }
  }

  /** The clearing before a batch takes exactly the picked plaintexts whose code cannot be presented any more. */
  lemma ClearExactly(key: Key, events: seq<Event>, now: Time, picks: set<nat>, k: nat)
    requires k < |Run(NEW_ACCOUNT, key, events).mails|
    ensures var a, b := Run(NEW_ACCOUNT, key, events), Run(NEW_ACCOUNT, key, events + [Clear(now, picks)]);
      && b.challenge == a.challenge && b.log == a.log && |b.mails| == |a.mails|
      && b.mails[k] == if k in picks then Kept(a.mails, Open(a.log, now), key, LastCode(key, events))[k] else a.mails[k]
  {
    RunReflects(key, events);
    RunOneMore(key, events, Clear(now, picks));
    RunKeepsMails(key, events);
    var a := Run(NEW_ACCOUNT, key, events);
    assert Current(a.challenge, key, a.mails[k]);
    OpenIsUsable(a.challenge, a.log, key, LastCode(key, events), now);
    if a.challenge.Some? {
      ClearedIsKept(a.mails, Open(a.log, now), a.challenge.value.digest, key, LastCode(key, events));
    }
  }

  /**
   * A refresh shows the row exactly while this worker's lease on it lasts, and hands its code over exactly if that code
   * could be presented there and then and, for a password reset, its user still exists.
   */
  lemma RefreshExactly(key: Key, events: seq<Event>, k: nat, token: Token, now: Time, userLive: bool)
    ensures var a := Run(NEW_ACCOUNT, key, events);
      var r := RefreshClaim(a, key, k, token, now, userLive);
      && (r.Some? <==> k < |a.mails| && a.mails[k].state == Sending && a.mails[k].lease.Some?
                       && a.mails[k].lease.value.token == token && a.mails[k].lease.value.until > now)
      && (r.Some? ==>
            && r.value.mail == a.mails[k]
            && HandedOver(r.value) ==
               if Open(a.log, now) && a.mails[k].digest.OfCode?
                  && LastCode(key, events) == Some(Some(a.mails[k].digest.code))
                  && (key.purpose == PasswordReset ==> userLive)
               then a.mails[k].code else None)
  {
    RunReflects(key, events);
    var a := Run(NEW_ACCOUNT, key, events);
    OpenIsUsable(a.challenge, a.log, key, LastCode(key, events), now);
    if k < |a.mails| { assert a.mails[k].digest == OfCode(key, a.mails[k].digest.code); }
  }

  /** A claim takes the picked mails that are waiting and due, or whose worker's lease has run out. */
  lemma ClaimExactly(a: Account, key: Key, picks: set<nat>, now: Time, token: Token, until: Time, k: nat)
    requires k < |a.mails|
    ensures var b, m := Step(a, key, Claim(picks, now, token, until)), a.mails[k];
      && b.challenge == a.challenge && b.log == a.log && |b.mails| == |a.mails|
      && b.mails[k] ==
         if k in picks && (m.state == Queued || m.state == Sending) && m.next.Some? && m.next.value <= now
            && (m.lease.None? || m.lease.value.until <= now)
         then m.(state := Sending, lease := Some(MailLease(token, until))) else m
  {
  }
}
