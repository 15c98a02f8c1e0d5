/** How many wrong guesses a code survives, and why their writes must outlive the failed request. */
module VerificationGuesses {
  import opened Common
  import opened VerificationCodes
  import opened VerificationRate

  // Wrong guesses since the code was last renewed.
  function WrongSince(log: seq<Entry>): nat {
    if log == [] then 0
    else
      var last := |log| - 1;
      if log[last].Accepted? then 0
      else WrongSince(log[..last]) + if log[last].Wrong? then 1 else 0
  }

  // Whether the current code has been consumed.
  predicate ConsumedSince(log: seq<Entry>) {
    log != [] && !log[|log| - 1].Accepted? && (log[|log| - 1].Consumed? || ConsumedSince(log[..|log| - 1]))
  }

  /** Before each guess the current code was neither consumed nor guessed wrong five times. */
  ghost predicate GuardedLog(log: seq<Entry>) {
    forall k :: 0 <= k < |log| && !log[k].Accepted? ==> WrongSince(log[..k]) < MAX_FAILED && !ConsumedSince(log[..k])
  }

  ghost predicate GuessInv(a: Account) { Counted(a.challenge, a.log) }

  // The challenge counts the wrong guesses since its code was renewed, and knows whether the code is consumed.
  ghost predicate Counted(challenge: Option<Challenge>, log: seq<Entry>) {
    && GuardedLog(log)
    && (challenge.None? ==> log == [])
    && (challenge.Some? ==>
          && challenge.value.failed == WrongSince(log) <= MAX_FAILED
          && (challenge.value.consumed.Some? <==> ConsumedSince(log)))
  }

  lemma Appended(log: seq<Entry>, e: Entry)
    ensures WrongSince(log + [e]) == if e.Accepted? then 0 else WrongSince(log) + if e.Wrong? then 1 else 0
    ensures ConsumedSince(log + [e]) <==> !e.Accepted? && (e.Consumed? || ConsumedSince(log))
  {
    assert (log + [e])[..|log|] == log;
  }

  lemma GuardedAppend(log: seq<Entry>, e: Entry)
    requires GuardedLog(log) && (e.Accepted? || (WrongSince(log) < MAX_FAILED && !ConsumedSince(log)))
    ensures GuardedLog(log + [e])
  {
    var all := log + [e];
    forall k | 0 <= k < |all| && !all[k].Accepted?
      ensures WrongSince(all[..k]) < MAX_FAILED && !ConsumedSince(all[..k])
    {
      assert all[..k] == log[..k];
      if k == |log| { assert log[..k] == log; }
    }
  }

  lemma SendKeepsGuesses(a: Account, key: Key, now: Time, code: Option<Code>, nonce: nat)
    requires GuessInv(a)
    ensures GuessInv(Send(a, key, now, code, nonce).0)
  {
    var c := EnforceSendRate(Locked(a, now), now);
    if c.Ok? {
      var e := Accepted(now, c.value.windowStart, c.value.count + 1);
      Appended(a.log, e);
      GuardedAppend(a.log, e);
    }
  }

  // A guess at a usable challenge is listed, and its outcome counted.
  lemma GuessCounted(c: Challenge, log: seq<Entry>, now: Time)
    requires Counted(Some(c), log) && Usable(c, now)
    ensures Counted(Some(c.(failed := c.failed + 1)), log + [Wrong(now)])
    ensures Counted(Some(c.(consumed := Some(now))), log + [Consumed(now)])
  {
    Appended(log, Wrong(now));
    GuardedAppend(log, Wrong(now));
    Appended(log, Consumed(now));
    GuardedAppend(log, Consumed(now));
  }

  lemma PresentKeepsGuesses(a: Account, key: Key, now: Time, code: Code, rest: int)
    requires GuessInv(a)
    ensures GuessInv(Present(a, key, now, code, rest, true))
  {
    PresentCases(a, key, now, code, rest);
    if a.challenge.Some? && Usable(a.challenge.value, now) { GuessCounted(a.challenge.value, a.log, now); }
  }

  lemma StepKeepsGuesses(a: Account, key: Key, e: Event)
    requires GuessInv(a)
    ensures GuessInv(Step(a, key, e))
  {
    match e
    case SendCode(now, code, nonce) => SendKeepsGuesses(a, key, now, code, nonce);
    case PresentCode(now, code, rest) => PresentKeepsGuesses(a, key, now, code, rest);
    case _ =>
  }

  lemma {:induction false} RunKeepsGuesses(key: Key, events: seq<Event>)
    ensures GuessInv(Run(NEW_ACCOUNT, key, events))
  {
    if events == [] {
    } else {
      RunKeepsGuesses(key, events[..|events| - 1]);
      StepKeepsGuesses(Run(NEW_ACCOUNT, key, events[..|events| - 1]), key, events[|events| - 1]);
    }
  }

  // ---- Counting over a stretch of the log ---------------------------------------

  function WrongIn(log: seq<Entry>): nat {
    if log == [] then 0 else WrongIn(log[..|log| - 1]) + if log[|log| - 1].Wrong? then 1 else 0
  }

  function ConsumedIn(log: seq<Entry>): nat {
    if log == [] then 0 else ConsumedIn(log[..|log| - 1]) + if log[|log| - 1].Consumed? then 1 else 0
  }

  // Guesses are paid for by the sends in the stretch, with at most one code's worth carried over its start.
  lemma {:induction false} GuessesArePaid(log: seq<Entry>, i: nat, j: nat)
    requires GuardedLog(log) && i <= j <= |log|
    ensures WrongSince(log[..j]) <= MAX_FAILED
    ensures WrongIn(log[i..j]) + WrongSince(log[..i]) <= MAX_FAILED * |Sends(log[i..j])| + WrongSince(log[..j])
    decreases j - i, j
  {
    if j > 0 {
      var prefix := log[..j];
      assert prefix[..j - 1] == log[..j - 1];
      if i < j {
        GuessesArePaid(log, i, j - 1);
        assert log[i..j][..j - 1 - i] == log[i..j - 1];
      } else {
        assert log[i..j] == [];
        if !log[j - 1].Accepted? { assert WrongSince(log[..j - 1]) < MAX_FAILED; }
      }
    }
  }

  /** Between two sends, or before or after all of them, at most five wrong guesses reach the digest comparison. */
  lemma FiveWrongGuessesPerCode(key: Key, events: seq<Event>, i: nat, j: nat)
    requires i <= j <= |Run(NEW_ACCOUNT, key, events).log|
    requires Sends(Run(NEW_ACCOUNT, key, events).log[i..j]) == []
    ensures WrongIn(Run(NEW_ACCOUNT, key, events).log[i..j]) <= MAX_FAILED
  {
    RunKeepsGuesses(key, events);
    GuessesArePaid(Run(NEW_ACCOUNT, key, events).log, i, j);
  }

  lemma {:induction false} NothingAfterConsumed(log: seq<Entry>, i: nat, j: nat)
    requires GuardedLog(log) && i < j < |log| && log[i].Consumed? && Sends(log[i..j]) == []
    ensures ConsumedSince(log[..j])
    decreases j
  {
    assert log[..j][..j - 1] == log[..j - 1];
    assert log[i..j][..j - 1 - i] == log[i..j - 1];
    if i < j - 1 { NothingAfterConsumed(log, i, j - 1); }
  }

  /** A code is consumed at most once, and nothing is compared with it afterwards. */
  lemma ConsumedAtMostOnce(key: Key, events: seq<Event>, i: nat, j: nat)
    requires i < j < |Run(NEW_ACCOUNT, key, events).log|
    requires var log := Run(NEW_ACCOUNT, key, events).log; log[i].Consumed? && Sends(log[i..j]) == []
    ensures Run(NEW_ACCOUNT, key, events).log[j].Accepted?
  {
    RunKeepsGuesses(key, events);
    NothingAfterConsumed(Run(NEW_ACCOUNT, key, events).log, i, j);
  }

  lemma {:induction false} SendsConcat(a: seq<Entry>, b: seq<Entry>)
    ensures Sends(a + b) == Sends(a) + Sends(b)
  {
    if b == [] {
      assert a + b == a;
    } else {
      SendsConcat(a, b[..|b| - 1]);
      assert (a + b)[..|a + b| - 1] == a + b[..|b| - 1];
    }
  }

  /**
   * However the requests interleave, a stretch of the log whose sends were accepted within one hour holds at most
   * fifty-five wrong guesses: ten codes' worth, and one more carried over.
   */
  lemma FiftyFivePerHour(key: Key, events: seq<Event>, i: nat, j: nat, start: Time)
    requires i <= j <= |Run(NEW_ACCOUNT, key, events).log|
    requires forall e :: e in Run(NEW_ACCOUNT, key, events).log[i..j] && e.Accepted? ==>
      start <= e.at <= start + SEND_WINDOW
    ensures WrongIn(Run(NEW_ACCOUNT, key, events).log[i..j]) <= 55
  {
    RunKeepsGuesses(key, events);
    RunKeepsRate(key, events);
    StretchBound(Run(NEW_ACCOUNT, key, events).log, i, j, start);
  }

  lemma Slices(log: seq<Entry>, i: nat, j: nat)
    requires i <= j <= |log|
    ensures log == log[..i] + log[i..j] + log[j..]
  {
  }

  lemma SendsOfThree(log: seq<Entry>, a: seq<Entry>, b: seq<Entry>, c: seq<Entry>)
    requires log == a + b + c
    ensures Sends(log) == Sends(a) + Sends(b) + Sends(c)
  {
    SendsConcat(a + b, c);
    SendsConcat(a, b);
  }

  lemma MiddleOfChain(a: seq<Entry>, b: seq<Entry>, c: seq<Entry>)
    requires Chain(a + b + c)
    ensures Chain(b)
  {
    var s := a + b + c;
    forall k | 0 <= k < |b|
      ensures WellSent(b[k]) && (k < |b| - 1 ==> Follows(b[k], b[k + 1]))
    {
      assert b[k] == s[|a| + k];
      if k < |b| - 1 { assert Follows(s[|a| + k], s[|a| + k + 1]); }
    }
  }

  lemma StretchBound(log: seq<Entry>, i: nat, j: nat, start: Time)
    requires GuardedLog(log) && Chain(Sends(log)) && i <= j <= |log|
    requires forall e :: e in log[i..j] && e.Accepted? ==> start <= e.at <= start + SEND_WINDOW
    ensures WrongIn(log[i..j]) <= 55
  {
    GuessesArePaid(log, i, j);
    Slices(log, i, j);
    SendsOfThree(log, log[..i], log[i..j], log[j..]);
    MiddleOfChain(Sends(log[..i]), Sends(log[i..j]), Sends(log[j..]));
    var within := Sends(log[i..j]);
    if within != [] { TenInAnHour(within, 0, |within| - 1, start); }
  }

  // ---- Without the commit -------------------------------------------------------

  function PresentMany(a: Account, key: Key, now: Time, code: Code, n: nat, persist: bool): Account {
    if n == 0 then a else Present(PresentMany(a, key, now, code, n - 1, persist), key, now, code, 400, persist)
  }

  /**
   * If the failed attempt were rolled back with its 400, any number of wrong guesses could be tried against one code:
   * the challenge would never change.
   */
  lemma {:induction false} RollbackNeverLocks(a: Account, key: Key, now: Time, code: Code, n: nat)
    requires a.challenge.Some? && Usable(a.challenge.value, now) && a.challenge.value.digest != OfCode(key, code)
    ensures var after := PresentMany(a, key, now, code, n, false);
      after.challenge == a.challenge && WrongIn(after.log) == WrongIn(a.log) + n
  {
    if n > 0 {
      RollbackNeverLocks(a, key, now, code, n - 1);
      var before := PresentMany(a, key, now, code, n - 1, false);
      assert (before.log + [Wrong(now)])[..|before.log|] == before.log;
    }
  }

  /** Committed as it is, the fifth wrong guess locks the code: even the right one is refused from then on. */
  lemma FifthGuessLocks(a: Account, key: Key, now: Time, wrong: Code, right: Code, later: Time)
    requires a.challenge.Some? && Usable(a.challenge.value, now) && a.challenge.value.failed == MAX_FAILED - 1
    requires a.challenge.value.digest == OfCode(key, right) && wrong != right
    ensures var after := Present(a, key, now, wrong, 400, true);
      Guess(after, key, later, right) == (after, Refused)
  {
  }
}
