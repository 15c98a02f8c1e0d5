/** How often codes are sent to one address for one purpose. */
module VerificationRate {
  import opened Common
  import opened VerificationCodes

  // The accepted sends of a log.
  function Sends(log: seq<Entry>): (r: seq<Entry>)
    ensures forall k :: 0 <= k < |r| ==> r[k].Accepted? && r[k] in log
  {
    if log == [] then []
    else Sends(log[..|log| - 1]) + if log[|log| - 1].Accepted? then [log[|log| - 1]] else []
  }

  lemma SendsAppend(log: seq<Entry>, e: Entry)
    ensures Sends(log + [e]) == Sends(log) + if e.Accepted? then [e] else []
  {
    assert (log + [e])[..|log|] == log;
  }

  /** The next accepted send: a minute later at least, in the same window as its next ordinal or opening a new one. */
  predicate Follows(p: Entry, q: Entry) {
    && p.Accepted? && q.Accepted?
    && q.at >= p.at + SEND_COOLDOWN
    && ((q.window == p.window && q.ordinal == p.ordinal + 1)
        || (q.window == q.at && q.ordinal == 1 && q.window >= p.window + SEND_WINDOW))
  }

  predicate WellSent(e: Entry) { e.Accepted? && 1 <= e.ordinal <= MAX_SENDS && e.window <= e.at }

  ghost predicate Chain(s: seq<Entry>) {
    && (forall k :: 0 <= k < |s| ==> WellSent(s[k]))
    && (forall k :: 0 <= k < |s| - 1 ==> Follows(s[k], s[k + 1]))
  }

  lemma ChainAppend(s: seq<Entry>, e: Entry)
    requires Chain(s) && WellSent(e) && (s != [] ==> Follows(s[|s| - 1], e))
    ensures Chain(s + [e])
  {
  }

  // The challenge remembers the last accepted send.
  predicate Remembers(c: Challenge, last: Entry) {
    last.Accepted? && c.lastSent == Some(last.at) && c.windowStart == last.window && c.count == last.ordinal
  }

  ghost predicate RateInv(a: Account) { Rated(a.challenge, Sends(a.log)) }

  ghost predicate Rated(challenge: Option<Challenge>, s: seq<Entry>) {
    && Chain(s)
    && (challenge.Some? <==> s != [])
    && (s != [] ==> Remembers(challenge.value, s[|s| - 1]))
  }

  // A challenge that may send again continues the chain.
  lemma NextSend(challenge: Option<Challenge>, s: seq<Entry>, base: Challenge, c: Challenge, now: Time)
    requires Rated(challenge, s) && EnforceSendRate(base, now) == Ok(c)
    requires base == if challenge.Some? then challenge.value else FreshChallenge(now)
    ensures var e := Accepted(now, c.windowStart, c.count + 1);
      WellSent(e) && (s != [] ==> Follows(s[|s| - 1], e))
  {
  }

  lemma SendKeepsRate(a: Account, key: Key, now: Time, code: Option<Code>, nonce: nat)
    requires RateInv(a)
    ensures RateInv(Send(a, key, now, code, nonce).0)
  {
    var c := EnforceSendRate(Locked(a, now), now);
    if c.Ok? {
      var e := Accepted(now, c.value.windowStart, c.value.count + 1);
      SendsAppend(a.log, e);
      NextSend(a.challenge, Sends(a.log), Locked(a, now), c.value, now);
      ChainAppend(Sends(a.log), e);
      assert Send(a, key, now, code, nonce).0.log == a.log + [e];
    }
  }

  // A guess leaves the columns the rate depends on alone.
  lemma GuessKeepsRate(a: Account, b: Account, e: Entry)
    requires RateInv(a) && a.challenge.Some? && b.challenge.Some? && !e.Accepted? && b.log == a.log + [e]
    requires var c, d := a.challenge.value, b.challenge.value;
      c.lastSent == d.lastSent && c.windowStart == d.windowStart && c.count == d.count
    ensures RateInv(b)
  {
    SendsAppend(a.log, e);
  }

  lemma PresentKeepsRate(a: Account, key: Key, now: Time, code: Code, rest: int)
    requires RateInv(a)
    ensures RateInv(Present(a, key, now, code, rest, true))
  {
    PresentCases(a, key, now, code, rest);
    if a.challenge.Some? {
      GuessKeepsRate(a, WrongGuess(a, now), Wrong(now));
      GuessKeepsRate(a, RightGuess(a, now), Consumed(now));
    }
  }

  lemma StepKeepsRate(a: Account, key: Key, e: Event)
    requires RateInv(a)
    ensures RateInv(Step(a, key, e))
  {
    match e
    case SendCode(now, code, nonce) => SendKeepsRate(a, key, now, code, nonce);
    case PresentCode(now, code, rest) => PresentKeepsRate(a, key, now, code, rest);
    case _ =>
  }

  lemma {:induction false} RunKeepsRate(key: Key, events: seq<Event>)
    ensures RateInv(Run(NEW_ACCOUNT, key, events))
  {
    if events == [] {
    } else {
      RunKeepsRate(key, events[..|events| - 1]);
      StepKeepsRate(Run(NEW_ACCOUNT, key, events[..|events| - 1]), key, events[|events| - 1]);
    }
  }

  /**
   * Two accepted sends lie in one window, counted up between them, or the later window began after the earlier send.
   */
  lemma {:induction false} Apart(s: seq<Entry>, i: nat, j: nat)
    requires Chain(s) && i <= j < |s|
    ensures s[j].at >= s[i].at + (j - i) * SEND_COOLDOWN
    ensures if s[j].window == s[i].window then s[j].ordinal == s[i].ordinal + (j - i)
            else s[j].window >= s[i].window + SEND_WINDOW && s[j].window >= s[i].at + SEND_COOLDOWN
    decreases j
  {
    if i < j {
      Apart(s, i, j - 1);
      assert Follows(s[j - 1], s[j]);
      assert WellSent(s[i]) && WellSent(s[j - 1]);
    }
  }

  /** Accepted sends are at least a minute apart, whatever clock readings the requests came with. */
  lemma AMinuteApart(key: Key, events: seq<Event>, i: nat, j: nat)
    requires i < j < |Sends(Run(NEW_ACCOUNT, key, events).log)|
    ensures var s := Sends(Run(NEW_ACCOUNT, key, events).log); s[j].at >= s[i].at + SEND_COOLDOWN
  {
    RunKeepsRate(key, events);
    MinutesApart(Sends(Run(NEW_ACCOUNT, key, events).log), i, j);
  }

  lemma MinutesApart(s: seq<Entry>, i: nat, j: nat)
    requires Chain(s) && i < j < |s|
    ensures s[j].at >= s[i].at + SEND_COOLDOWN
  {
    Apart(s, i, j);
    assert (j - i) * SEND_COOLDOWN >= SEND_COOLDOWN;
  }

  /** At most five accepted sends share a window, and windows are at least an hour apart. */
  lemma FivePerWindow(key: Key, events: seq<Event>, i: nat, j: nat)
    requires i <= j < |Sends(Run(NEW_ACCOUNT, key, events).log)|
    ensures var s := Sends(Run(NEW_ACCOUNT, key, events).log);
      if s[i].window == s[j].window then j - i + 1 <= MAX_SENDS else s[j].window >= s[i].window + SEND_WINDOW
  {
    RunKeepsRate(key, events);
    var s := Sends(Run(NEW_ACCOUNT, key, events).log);
    Apart(s, i, j);
    assert WellSent(s[i]) && WellSent(s[j]);
  }

  lemma ElevenSpanMoreThanAnHour(s: seq<Entry>, i: nat)
    requires Chain(s) && i + 10 < |s|
    ensures s[i + 10].at >= s[i].at + SEND_WINDOW + SEND_COOLDOWN
  {
    Apart(s, i, i + 5);
    Apart(s, i + 5, i + 10);
    assert WellSent(s[i]) && WellSent(s[i + 5]) && WellSent(s[i + 10]);
  }

  /** No hour, wherever it starts, holds more than ten accepted sends. */
  lemma TenPerHour(key: Key, events: seq<Event>, i: nat, j: nat, start: Time)
    requires i <= j < |Sends(Run(NEW_ACCOUNT, key, events).log)|
    requires var s := Sends(Run(NEW_ACCOUNT, key, events).log); start <= s[i].at && s[j].at <= start + SEND_WINDOW
    ensures j - i + 1 <= 10
  {
    RunKeepsRate(key, events);
    TenInAnHour(Sends(Run(NEW_ACCOUNT, key, events).log), i, j, start);
  }

  lemma TenInAnHour(s: seq<Entry>, i: nat, j: nat, start: Time)
    requires Chain(s) && i <= j < |s| && WellSent(s[i]) && WellSent(s[j])
    requires start <= s[i].at && s[j].at <= start + SEND_WINDOW
    ensures j - i + 1 <= 10
  {
    if i + 10 <= j {
      ElevenSpanMoreThanAnHour(s, i);
      if i + 10 < j { MinutesApart(s, i + 10, j); }
    }
  }

  /**
   * A refusal says how long to wait. A second earlier the same challenge still refuses; after the wait it accepts,
   * unless the wait was the cool-down of a full window, which is refused again for the rest of the window.
   */
  lemma RetryAfterIsExact(c: Challenge, now: Time, later: Time)
    requires EnforceSendRate(c, now).Err? && now <= later
    ensures var wait := EnforceSendRate(c, now).error;
      var cooling := c.lastSent.Some? && now < c.lastSent.value + SEND_COOLDOWN;
      && wait >= 1
      && (wait > 1 && later <= now + (wait - 1) * SECOND ==> EnforceSendRate(c, later).Err?)
      && (later >= now + wait * SECOND && !(cooling && c.count >= MAX_SENDS && later < c.windowStart + SEND_WINDOW)
          ==> EnforceSendRate(c, later).Ok?)
  {
  }
}
