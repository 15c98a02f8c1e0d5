/** The worker that sends verification mails, running beside everybody else. */
module VerificationMailWorker {
  import opened Common
  import opened VerificationCodes
  import opened VerificationMail

  const DAY := 24 * 3600 * SECOND

  datatype WorkerOptions = WorkerOptions(batch: int, lease: int, maxAttempts: int, retry: int)

  function WithDefaults(o: WorkerOptions): (r: WorkerOptions)
    ensures 0 < r.batch <= 100 && r.lease > 0 && r.maxAttempts > 0 && r.retry > 0
    ensures (0 < o.batch <= 100 ==> r.batch == o.batch) && (o.lease > 0 ==> r.lease == o.lease)
    ensures (o.maxAttempts > 0 ==> r.maxAttempts == o.maxAttempts) && (o.retry > 0 ==> r.retry == o.retry)
  {
    WorkerOptions(
      if o.batch <= 0 || o.batch > 100 then 4 else o.batch,
      if o.lease <= 0 then 60 * SECOND else o.lease,
      if o.maxAttempts <= 0 then 8 else o.maxAttempts,
      if o.retry <= 0 then 30 * SECOND else o.retry)
  }

  // The retry delay without its cap.
  function Doubled(base: int, attempts: int): int
    decreases attempts
  {
    if attempts <= 1 then base else 2 * Doubled(base, attempts - 1)
  }

  lemma {:induction false} DoubledGrows(base: int, m: int, n: int)
    requires base > 0 && m <= n
    ensures 0 < Doubled(base, m) <= Doubled(base, n)
    decreases n - m, n
  {
    if m < n {
      DoubledGrows(base, m, n - 1);
    } else if n > 1 {
      DoubledGrows(base, n - 1, n - 1);
    }
  }

  /** Doubles with every attempt, up to a day. */
  method RetryDelay(base: int, attempts: int) returns (delay: int)
    requires base > 0
    ensures delay == Min(Doubled(base, attempts), DAY)
  {
    delay := base;
    var index := 1;
    while index < attempts && delay < DAY
      invariant index == 1 || index <= attempts
      invariant index >= 1 && delay == Doubled(base, index)
    {
      delay := delay * 2;
      index := index + 1;
    }
    DoubledGrows(base, Min(index, attempts), Max(index, attempts));
    if delay > DAY { return DAY; }
  }

  // ---- Which mails a claim takes -------------------------------------------------

  predicate Earlier(mails: seq<Mail>, i: nat, j: nat) {
    && i < |mails| && j < |mails| && mails[i].next.Some? && mails[j].next.Some?
    && (mails[i].next.value < mails[j].next.value || (mails[i].next.value == mails[j].next.value && i < j))
  }

  function DueMails(mails: seq<Mail>, now: Time, locked: set<nat>): (r: set<nat>)
    ensures forall k :: k in r ==> k < |mails| && mails[k].next.Some?
  {
    set k | 0 <= k < |mails| && MailDue(mails[k], now) && k !in locked
  }

  /** Due are mails that wait for their next attempt or whose lease has run out, unless another claim locks them. */
  lemma DueExactly(mails: seq<Mail>, now: Time, locked: set<nat>, k: nat)
    ensures k in DueMails(mails, now, locked) <==>
      && k < |mails| && k !in locked && (mails[k].state == Queued || mails[k].state == Sending)
      && mails[k].next.Some? && mails[k].next.value <= now
      && (mails[k].lease.Some? ==> mails[k].lease.value.until <= now)
  {
  }

  /** The first `limit` due mails in claim order. */
  ghost predicate FirstDue(mails: seq<Mail>, due: set<nat>, picks: seq<nat>, limit: nat) {
    && (forall k :: k in picks ==> k in due)
    && |picks| == Min(limit, |due|)
    && (forall a, b :: 0 <= a < b < |picks| ==> Earlier(mails, picks[a], picks[b]))
    && (forall a, k :: 0 <= a < |picks| && k in due && k !in picks ==> Earlier(mails, picks[a], k))
  }

  /** The picks go by next attempt and then by id, and what is left comes after all of them. */
  lemma PicksByColumns(mails: seq<Mail>, due: set<nat>, picks: seq<nat>, limit: nat, a: nat, k: nat)
    requires FirstDue(mails, due, picks, limit) && a < |picks|
    requires (k in due && k !in picks) || k in picks[a + 1..]
    ensures k < |mails| && picks[a] < |mails| && mails[k].next.Some? && mails[picks[a]].next.Some?
    ensures var mine, other := mails[picks[a]].next.value, mails[k].next.value;
      mine <= other && (mine == other ==> picks[a] < k)
  {
    if k in picks[a + 1..] {
      var b :| a < b < |picks| && picks[b] == k;
      assert Earlier(mails, picks[a], picks[b]);
    } else {
      assert Earlier(mails, picks[a], k);
    }
  }

  method First(mails: seq<Mail>, todo: set<nat>) returns (first: nat)
    requires todo != {} && forall k :: k in todo ==> k < |mails| && mails[k].next.Some?
    ensures first in todo && forall k :: k in todo && k != first ==> Earlier(mails, first, k)
  {
    first :| first in todo;
    var rest := todo - {first};
    while rest != {}
      invariant rest <= todo && first in todo && first !in rest
      invariant forall k :: k in todo && k !in rest && k != first ==> Earlier(mails, first, k)
      decreases |rest|
    {
      var k :| k in rest;
      if Earlier(mails, k, first) { first := k; }
      rest := rest - {k};
    }
  }

  method SelectDue(mails: seq<Mail>, due: set<nat>, limit: nat) returns (picks: seq<nat>)
    requires forall k :: k in due ==> k < |mails| && mails[k].next.Some?
    ensures FirstDue(mails, due, picks, limit)
  {
    var todo := due;
    picks := [];
    while |picks| < limit && todo != {}
      invariant todo <= due && (forall k :: k in due <==> k in todo || k in picks)
      invariant forall k :: k in picks ==> k !in todo
      invariant |picks| + |todo| == |due| && |picks| <= limit
      invariant forall a, b :: 0 <= a < b < |picks| ==> Earlier(mails, picks[a], picks[b])
      invariant forall a, k :: 0 <= a < |picks| && k in todo ==> Earlier(mails, picks[a], k)
      decreases |todo|
    {
      var k := First(mails, todo);
      todo, picks := todo - {k}, picks + [k];
    }
  }

  // ---- The world the worker runs in ---------------------------------------------------

  lemma AnswersStay(a: Account, key: Key, e: Event)
    ensures a.answers <= Step(a, key, e).answers
  {
  }

  lemma RunOneMore(key: Key, events: seq<Event>, e: Event)
    ensures Run(NEW_ACCOUNT, key, events + [e]) == Step(Run(NEW_ACCOUNT, key, events), key, e)
  {
    assert (events + [e])[..|events|] == events;
  }

  /** One challenge with its mails, everybody who writes them, and the mail provider. */
  class Platform {
    const key: Key
    var account: Account
    ghost var trace: seq<Event>
    ghost var faults: nat              // failed transactions of the worker under study

    ghost predicate Valid()
      reads this
    {
      account == Run(NEW_ACCOUNT, key, trace)
    }

    constructor (key: Key)
      ensures Valid() && this.key == key
    {
      this.key, account, trace, faults := key, NEW_ACCOUNT, [], 0;
    }

    method Perform(e: Event)
      requires Valid()
      modifies this
      ensures Valid() && account == Step(old(account), key, e) && trace == old(trace) + [e] && faults == old(faults)
    {
      RunOneMore(key, trace, e);
      account := Step(account, key, e);
      trace := trace + [e];
    }

    /** Does the next transaction reach the database? */
    method Transact() returns (ok: bool)
      requires Valid()
      modifies this`faults
      ensures Valid() && faults == if ok then old(faults) else old(faults) + 1
    {
      ok := *;
      if !ok { faults := faults + 1; }
    }

    /** Any number of steps of anybody else. */
    method Interfere(token: Token)
      requires Valid()
      modifies this
      ensures Valid() && old(trace) <= trace && |old(account.mails)| <= |account.mails| && faults == old(faults)
      ensures old(account.answers) <= account.answers
      ensures forall k :: 0 <= k < |old(account.mails)| ==> Held(old(account.mails)[k], account.mails[k], token)
    {
      var steps: nat := *;
      while steps > 0
        invariant Valid() && old(trace) <= trace && |old(account.mails)| <= |account.mails| && faults == old(faults)
        invariant old(account.answers) <= account.answers
        invariant forall k :: 0 <= k < |old(account.mails)| ==> Held(old(account.mails)[k], account.mails[k], token)
      {
        var e: Event := *;
        if Foreign(e, token) {
          forall k | 0 <= k < |account.mails|
            ensures k < |Step(account, key, e).mails| && Held(account.mails[k], Step(account, key, e).mails[k], token)
          {
            ForeignStepHolds(account, key, e, token, k);
          }
          AnswersStay(account, key, e);
          Perform(e);
        }
        steps := steps - 1;
      }
    }
  }

  // ---- One claim ---------------------------------------------------------------------

  datatype Outcome = Lost | WasCanceled | WasSent | WasRescheduled | WasDeadLettered

  /** What a worker does about a mail it has just refreshed, given whether the provider took it. */
  function Chosen(r: Refreshed, delivered: bool, now: Time, o: WorkerOptions): MailUpdate {
    if r.mail.code.None? || !r.current then Cancel
    else if delivered then MarkSent
    else if r.mail.attempts + 1 >= o.maxAttempts then Exhaust(r.mail.attempts + 1)
    else Reschedule(r.mail.attempts + 1, now + Min(Doubled(o.retry, r.mail.attempts + 1), DAY))
  }

  function OutcomeOf(u: MailUpdate): Outcome {
    match u
    case Cancel => WasCanceled
    case MarkSent => WasSent
    case Reschedule(_, _) => WasRescheduled
    case Exhaust(_) => WasDeadLettered
  }

  // What a worker saw of one claim: the length of the history at its refresh, its clock, the user, the provider's
  // answer.
  datatype Sight = Sight(seen: nat, now: Time, userLive: bool, delivered: bool)

  function Before(key: Key, history: seq<Event>): Account
    requires history != []
  {
    Run(NEW_ACCOUNT, key, history[..|history| - 1])
  }

  /**
   * The history ends with the processing of mail k: its refresh found the lease lost and nothing was written, or the
   * write chosen for what it showed was the last step, and the outcome says whether the row was still this worker's.
   */
  ghost predicate Processed(
    key: Key, history: seq<Event>, k: nat, token: Token, o: WorkerOptions, outcome: Outcome, sight: Sight)
  {
    sight.seen <= |history|
    && var r := RefreshClaim(Run(NEW_ACCOUNT, key, history[..sight.seen]), key, k, token, sight.now, sight.userLive);
       if r.None? then outcome.Lost? && sight.seen == |history|
       else
         var u := Chosen(r.value, sight.delivered, sight.now, o);
         && sight.seen < |history| && history[|history| - 1] == Finish(k, token, u)
         && k < |Before(key, history).mails|
         && (u.Cancel? || Answer(k, token, sight.delivered) in Before(key, history).answers)
         && outcome == if Owns(Before(key, history).mails[k], token) then OutcomeOf(u) else Lost
  }

  lemma NothingProcessed(key: Key, history: seq<Event>, k: nat, token: Token, o: WorkerOptions, sight: Sight)
    requires sight.seen == |history|
    requires RefreshClaim(Run(NEW_ACCOUNT, key, history), key, k, token, sight.now, sight.userLive).None?
    ensures Processed(key, history, k, token, o, Lost, sight)
  {
    assert history[..|history|] == history;
  }

  lemma ProcessedByWrite(
    key: Key, seen: seq<Event>, history: seq<Event>, k: nat, token: Token, o: WorkerOptions, outcome: Outcome,
    sight: Sight, claim: Refreshed)
    requires seen <= history && |seen| < |history| && sight.seen == |seen|
    requires RefreshClaim(Run(NEW_ACCOUNT, key, seen), key, k, token, sight.now, sight.userLive) == Some(claim)
    requires var u := Chosen(claim, sight.delivered, sight.now, o);
      && history[|history| - 1] == Finish(k, token, u) && k < |Before(key, history).mails|
      && (u.Cancel? || Answer(k, token, sight.delivered) in Before(key, history).answers)
      && outcome == if Owns(Before(key, history).mails[k], token) then OutcomeOf(u) else Lost
    ensures Processed(key, history, k, token, o, outcome, sight)
  {
    assert history[..|seen|] == seen;
  }

  // Each processed mail ended a part of the history.
  ghost predicate AllProcessed(
    key: Key, history: seq<Event>, picks: seq<nat>, token: Token, o: WorkerOptions,
    outcomes: seq<Outcome>, sights: seq<Sight>, ends: seq<nat>)
  {
    && |outcomes| == |sights| == |ends| <= |picks|
    && forall n :: 0 <= n < |outcomes| ==>
         ends[n] <= |history| && Processed(key, history[..ends[n]], picks[n], token, o, outcomes[n], sights[n])
  }

  lemma LaterProcessed(
    key: Key, history: seq<Event>, more: seq<Event>, picks: seq<nat>, token: Token, o: WorkerOptions,
    outcomes: seq<Outcome>, sights: seq<Sight>, ends: seq<nat>)
    requires AllProcessed(key, history, picks, token, o, outcomes, sights, ends) && history <= more
    ensures AllProcessed(key, more, picks, token, o, outcomes, sights, ends)
  {
    forall n | 0 <= n < |outcomes|
      ensures Processed(key, more[..ends[n]], picks[n], token, o, outcomes[n], sights[n])
    {
      assert more[..ends[n]] == history[..ends[n]];
    }
  }

  lemma OneMoreProcessed(
    key: Key, history: seq<Event>, picks: seq<nat>, token: Token, o: WorkerOptions,
    outcomes: seq<Outcome>, sights: seq<Sight>, ends: seq<nat>, outcome: Outcome, sight: Sight)
    requires AllProcessed(key, history, picks, token, o, outcomes, sights, ends) && |outcomes| < |picks|
    requires Processed(key, history, picks[|outcomes|], token, o, outcome, sight)
    ensures AllProcessed(key, history, picks, token, o, outcomes + [outcome], sights + [sight], ends + [|history|])
  {
    assert history[..|history|] == history;
  }

  /** After that history the code would be accepted. */
  predicate Accepts(key: Key, history: seq<Event>, now: Time, code: Code) {
    Guess(Run(NEW_ACCOUNT, key, history), key, now, code).1 == Match
  }

  // The code the refresh of a processed mail showed, if it may be sent.
  function Handed(key: Key, history: seq<Event>, k: nat, token: Token, sight: Sight): Option<Code>
    requires sight.seen <= |history|
  {
    var r := RefreshClaim(Run(NEW_ACCOUNT, key, history[..sight.seen]), key, k, token, sight.now, sight.userLive);
    if r.Some? then HandedOver(r.value) else None
  }

  /**
   * A mail that ended sent, rescheduled or dead-lettered had its code handed to the sender, and that code would have
   * been accepted at the refresh; a cancelled one had none to hand over.
   */
  lemma SentCodesWereValid(
    key: Key, history: seq<Event>, k: nat, token: Token, o: WorkerOptions, outcome: Outcome, sight: Sight)
    requires Processed(key, history, k, token, o, outcome, sight) && !outcome.Lost?
    ensures Handed(key, history, k, token, sight).Some? <==> !outcome.WasCanceled?
    ensures !outcome.WasCanceled? ==>
      Accepts(key, history[..sight.seen], sight.now, Handed(key, history, k, token, sight).value)
  {
    if !outcome.WasCanceled? {
      HandedOverIsValid(key, history[..sight.seen], k, token, sight.now, sight.userLive);
    }
  }

  // The retry wait: doubled with every attempt, a day at most.
  function RetryWait(base: int, attempt: int): int
    decreases attempt
  {
    if attempt <= 1 then Min(base, DAY) else Min(2 * RetryWait(base, attempt - 1), DAY)
  }

  lemma {:induction false} DelayIsWait(base: int, attempt: int)
    requires base > 0
    ensures Min(Doubled(base, attempt), DAY) == RetryWait(base, attempt) > 0
    decreases attempt
  {
    if attempt > 1 { DelayIsWait(base, attempt - 1); }
  }

  /** The row a claim leaves behind, by columns. */
  function EndOf(m: Mail, outcome: Outcome, attempts: nat, now: Time, o: WorkerOptions): Mail {
    match outcome
    case Lost => m
    case WasSent => m.(state := Sent, lease := None, next := None, lastError := None)
    case WasCanceled =>
      m.(state := Canceled, lease := None, next := None, lastError := Some(StaleChallenge), code := None)
    case WasRescheduled =>
      m.(state := Queued, lease := None, next := Some(now + RetryWait(o.retry, attempts)), attempts := attempts,
         lastError := Some(ProviderError))
    case WasDeadLettered =>
      m.(state := DeadLetter, lease := None, next := None, attempts := attempts,
         lastError := Some(DeliveryExhausted), code := None)
  }

  /**
   * A mail ends sent exactly if its code was handed over and the provider accepted it; a rejected one is dead-lettered
   * exactly when that was its last attempt, and queued again otherwise. The answer is on record, and the row holds what
   * the outcome says.
   */
  lemma MailEndsAsAnswered(
    key: Key, history: seq<Event>, k: nat, token: Token, o: WorkerOptions, outcome: Outcome, sight: Sight)
    requires Processed(key, history, k, token, o, outcome, sight) && !outcome.Lost? && o.retry > 0
    ensures var shown, before, after :=
                Run(NEW_ACCOUNT, key, history[..sight.seen]).mails, Before(key, history),
                Run(NEW_ACCOUNT, key, history);
      var handed := Handed(key, history, k, token, sight).Some?;
      && k < |shown| && k < |before.mails| && k < |after.mails|
      && (outcome.WasSent? <==> handed && sight.delivered)
      && (outcome.WasCanceled? <==> !handed)
      && (handed && !sight.delivered ==>
            outcome == if shown[k].attempts + 1 >= o.maxAttempts then WasDeadLettered else WasRescheduled)
      && (handed ==> Answer(k, token, sight.delivered) in before.answers)
      && after.mails == before.mails[k := EndOf(before.mails[k], outcome, shown[k].attempts + 1, sight.now, o)]
  {
    var r := ProcessedWrite(key, history, k, token, o, outcome, sight);
    ChosenExactly(r, sight.delivered, sight.now, o);
    WriteEnds(Before(key, history), key, k, token, r, sight.delivered, sight.now, o);
  }

  // The last step of a processed mail that was not lost.
  lemma ProcessedWrite(
    key: Key, history: seq<Event>, k: nat, token: Token, o: WorkerOptions, outcome: Outcome, sight: Sight)
    returns (r: Refreshed)
    requires Processed(key, history, k, token, o, outcome, sight) && !outcome.Lost?
    ensures history != [] && Handed(key, history, k, token, sight) == HandedOver(r)
    ensures var shown := Run(NEW_ACCOUNT, key, history[..sight.seen]).mails;
      k < |shown| && r.mail == shown[k]
    ensures var a, u := Before(key, history), Chosen(r, sight.delivered, sight.now, o);
      && k < |a.mails| && Owns(a.mails[k], token) && outcome == OutcomeOf(u)
      && (u.Cancel? || Answer(k, token, sight.delivered) in a.answers)
      && Run(NEW_ACCOUNT, key, history) == Step(a, key, Finish(k, token, u))
  {
    var last := |history| - 1;
    assert history == history[..last] + [history[last]];
    RunOneMore(key, history[..last], history[last]);
    r := RefreshClaim(Run(NEW_ACCOUNT, key, history[..sight.seen]), key, k, token, sight.now, sight.userLive).value;
  }

  lemma ChosenExactly(r: Refreshed, delivered: bool, now: Time, o: WorkerOptions)
    ensures var outcome := OutcomeOf(Chosen(r, delivered, now, o));
      && (outcome.WasSent? <==> HandedOver(r).Some? && delivered)
      && (outcome.WasCanceled? <==> HandedOver(r).None?)
      && (HandedOver(r).Some? && !delivered ==>
            outcome == if r.mail.attempts + 1 >= o.maxAttempts then WasDeadLettered else WasRescheduled)
  {
  }

  lemma WriteEnds(
    a: Account, key: Key, k: nat, token: Token, r: Refreshed, delivered: bool, now: Time, o: WorkerOptions)
    requires k < |a.mails| && Owns(a.mails[k], token) && o.retry > 0
    requires Chosen(r, delivered, now, o).Cancel? || Answer(k, token, delivered) in a.answers
    ensures var u := Chosen(r, delivered, now, o);
      Step(a, key, Finish(k, token, u)).mails ==
      a.mails[k := EndOf(a.mails[k], OutcomeOf(u), r.mail.attempts + 1, now, o)]
  {
    DelayIsWait(o.retry, r.mail.attempts + 1);
  }

  class MailWorker {
    const platform: Platform
    const token: Token
    const o: WorkerOptions

    constructor (platform: Platform, token: Token, options: WorkerOptions)
      ensures this.platform == platform && this.token == token && this.o == WithDefaults(options)
    {
      this.platform, this.token, this.o := platform, token, WithDefaults(options);
    }

    /** Only steps of the modelled kinds happen, and no mail disappears. */
    twostate predicate Went()
      reads this, platform
    {
      && platform.Valid() && old(platform.trace) <= platform.trace && old(platform.faults) <= platform.faults
      && |old(platform.account.mails)| <= |platform.account.mails|
    }

    /** One claimed mail: refresh, then cancel it or hand its code to the provider. */
    method ProcessClaim(k: nat) returns (outcome: Outcome, err: bool, ghost sight: Sight)
      requires platform.Valid() && k < |platform.account.mails| && 0 < o.maxAttempts && o.retry > 0
      modifies platform
      ensures Went() && (err <==> platform.faults > old(platform.faults))
      ensures !err ==>
        && |old(platform.trace)| <= sight.seen
        && Processed(platform.key, platform.trace, k, token, o, outcome, sight)
      ensures !err && !outcome.Lost? ==>
        Before(platform.key, platform.trace).mails[k].attempts == old(platform.account.mails)[k].attempts
    {
      var claim, now, userLive;
      claim, err, now, userLive := Refresh(k);
      sight := Sight(|platform.trace|, now, userLive, false);
      if err { return Lost, true, sight; }
      if claim.None? {
        NothingProcessed(platform.key, platform.trace, k, token, o, sight);
        return Lost, false, sight;
      }
      outcome, err, sight := Deliver(k, claim.value, now, sight);
    }

    /** The provider call, if the refresh allows it, and the write of the result. */
    method Deliver(k: nat, claim: Refreshed, now: Time, ghost sight: Sight)
      returns (outcome: Outcome, err: bool, ghost full: Sight)
      requires platform.Valid() && k < |platform.account.mails| && 0 < o.maxAttempts && o.retry > 0
      requires sight.seen == |platform.trace| && sight.now == now
      requires RefreshClaim(platform.account, platform.key, k, token, now, sight.userLive) == Some(claim)
      modifies platform
      ensures Went() && (err <==> platform.faults > old(platform.faults)) && full == sight.(delivered := full.delivered)
      ensures !err ==> Processed(platform.key, platform.trace, k, token, o, outcome, full)
      ensures !err && !outcome.Lost? ==>
        |platform.trace| > 0 && k < |Before(platform.key, platform.trace).mails|
        && Before(platform.key, platform.trace).mails[k].attempts == old(platform.account.mails)[k].attempts
    {
      var delivered := false;
      if claim.mail.code.Some? && claim.current {
        platform.Interfere(token);
        delivered := *;
        platform.Perform(Reply(k, token, delivered));
      }
      full := sight.(delivered := delivered);
      outcome, err := WriteOutcome(k, claim, delivered, now);
      if !err {
        ProcessedByWrite(platform.key, old(platform.trace), platform.trace, k, token, o, outcome, full, claim);
      }
    }

    /** Rereads the row and its challenge; nothing if the lease is lost. */
    method Refresh(k: nat) returns (claim: Option<Refreshed>, err: bool, now: Time, userLive: bool)
      requires platform.Valid() && k < |platform.account.mails|
      modifies platform
      ensures Went() && (err <==> platform.faults > old(platform.faults))
      ensures !err ==> claim == RefreshClaim(platform.account, platform.key, k, token, now, userLive)
      ensures claim.Some? ==> claim.value.mail.attempts == old(platform.account.mails)[k].attempts
    {
      platform.Interfere(token);
      now := *;
      userLive := *;
      var ok := platform.Transact();
      if !ok { return None, true, now, userLive; }
      err := false;
      claim := RefreshClaim(platform.account, platform.key, k, token, now, userLive);
    }

    /** The write that ends a claim, by what the refresh showed and what the provider answered. */
    method WriteOutcome(k: nat, claim: Refreshed, delivered: bool, now: Time) returns (outcome: Outcome, err: bool)
      requires platform.Valid() && k < |platform.account.mails| && 0 < o.maxAttempts && o.retry > 0
      requires claim.mail.code.Some? && claim.current ==> Answer(k, token, delivered) in platform.account.answers
      modifies platform
      ensures Went() && (err <==> platform.faults > old(platform.faults))
      ensures !err ==>
        && |old(platform.trace)| < |platform.trace|
        && platform.trace[|platform.trace| - 1] == Finish(k, token, Chosen(claim, delivered, now, o))
        && var before := Before(platform.key, platform.trace);
           && k < |before.mails|
           && Held(old(platform.account.mails)[k], before.mails[k], token)
           && old(platform.account.answers) <= before.answers
           && outcome == if Owns(before.mails[k], token) then OutcomeOf(Chosen(claim, delivered, now, o)) else Lost
    {
      var mail := claim.mail;
      var updated;
      if mail.code.None? || !claim.current {
        updated, err := UpdateClaim(k, Cancel);
        return if updated then WasCanceled else Lost, err;
      }
      if delivered {
        updated, err := UpdateClaim(k, MarkSent);
        return if updated then WasSent else Lost, err;
      }
      var attempts := mail.attempts + 1;
      if attempts >= o.maxAttempts {
        updated, err := UpdateClaim(k, Exhaust(attempts));
        return if updated then WasDeadLettered else Lost, err;
      }
      var delay := RetryDelay(o.retry, attempts);
      updated, err := UpdateClaim(k, Reschedule(attempts, now + delay));
      return if updated then WasRescheduled else Lost, err;
    }

    /** The fenced write, after whatever others did since the refresh. */
    method UpdateClaim(k: nat, u: MailUpdate) returns (updated: bool, err: bool)
      requires platform.Valid() && k < |platform.account.mails|
      modifies platform
      ensures Went() && (err <==> platform.faults > old(platform.faults))
      ensures !err ==>
        && |old(platform.trace)| < |platform.trace| && platform.trace[|platform.trace| - 1] == Finish(k, token, u)
        && var before := Before(platform.key, platform.trace);
           && k < |before.mails|
           && Held(old(platform.account.mails)[k], before.mails[k], token)
           && old(platform.account.answers) <= before.answers
           && (updated <==> Owns(before.mails[k], token))
    {
      platform.Interfere(token);
      var ok := platform.Transact();
      if !ok { return false, true; }
      err := false;
      updated := Owns(platform.account.mails[k], token);
      ghost var before := platform.trace;
      platform.Perform(Finish(k, token, u));
      assert platform.trace[..|platform.trace| - 1] == before;
    }

    /** The claiming transaction: stale plaintexts go, and the first due mails get the token and lease. */
    method ClaimMails(now: Time, clearable: set<nat>, locked: set<nat>) returns (picks: seq<nat>, err: bool)
      requires platform.Valid() && 0 < o.batch
      modifies platform
      ensures Went() && (err <==> platform.faults > old(platform.faults))
      ensures if err then picks == []
              else FirstDue(ClearInvalid(old(platform.account), now, clearable).mails,
                            DueMails(old(platform.account.mails), now, locked), picks, o.batch)
      ensures !err ==>
        var claim := Claim((set k | k in picks), now, token, now + o.lease);
        platform.trace == old(platform.trace) + [Clear(now, clearable), claim]
      ensures forall k :: k in picks ==> k < |platform.account.mails|
    {
      var ok := platform.Transact();
      if !ok { return [], true; }
      err := false;
      platform.Perform(Clear(now, clearable));
      ClearKeepsDue(platform.account, old(platform.account), now, clearable, locked);
      var mails := platform.account.mails;
      picks := SelectDue(mails, DueMails(mails, now, locked), o.batch);
      platform.Perform(Claim((set k | k in picks), now, token, now + o.lease));
    }

    /**
     * Clears stale plaintexts, claims the first due mails under one token and processes each to an outcome. A database
     * error ends the batch, and only that; what was counted before it stays counted.
     */
    method RunBatch(now: Time, clearable: set<nat>, locked: set<nat>)
      returns (r: Tally, err: bool, picks: seq<nat>, outcomes: seq<Outcome>, ghost sights: seq<Sight>,
               ghost ends: seq<nat>)
      requires platform.Valid() && 0 < o.batch && 0 < o.maxAttempts && o.retry > 0
      modifies platform
      ensures Went() && (err <==> platform.faults > old(platform.faults))
      ensures picks == [] || FirstDue(ClearInvalid(old(platform.account), now, clearable).mails,
                                      DueMails(old(platform.account.mails), now, locked), picks, o.batch)
      ensures !err ==> |outcomes| == |picks| == Min(o.batch, |DueMails(old(platform.account.mails), now, locked)|)
      ensures AllProcessed(platform.key, platform.trace, picks, token, o, outcomes, sights, ends)
      ensures r == TallyOf(|picks|, outcomes)
    {
      var unclaimed, unfinished;
      picks, unclaimed := ClaimMails(now, clearable, locked);
      r, unfinished, outcomes, sights, ends := ProcessAll(picks);
      err := unclaimed || unfinished;
    }

    // Each claimed mail in turn, up to the first database error.
    method ProcessAll(picks: seq<nat>)
      returns (r: Tally, err: bool, outcomes: seq<Outcome>, ghost sights: seq<Sight>, ghost ends: seq<nat>)
      requires platform.Valid() && 0 < o.maxAttempts && o.retry > 0
      requires forall k :: k in picks ==> k < |platform.account.mails|
      modifies platform
      ensures Went() && (err <==> platform.faults > old(platform.faults))
      ensures !err ==> |outcomes| == |picks|
      ensures AllProcessed(platform.key, platform.trace, picks, token, o, outcomes, sights, ends)
      ensures r == TallyOf(|picks|, outcomes)
    {
      err, outcomes, sights, ends := false, [], [], [];
      r := TallyOf(|picks|, []);
      var n := 0;
      while n < |picks| && !err
        invariant 0 <= n <= |picks| && Went() && forall k :: k in picks ==> k < |platform.account.mails|
        invariant err <==> platform.faults > old(platform.faults)
        invariant !err ==> |outcomes| == n
        invariant AllProcessed(platform.key, platform.trace, picks, token, o, outcomes, sights, ends)
        invariant r == TallyOf(|picks|, outcomes)
        decreases |picks| - n, !err
      {
        assert picks[n] in picks;
        ghost var done := platform.trace;
        var outcome, failed, sight := ProcessClaim(picks[n]);
        LaterProcessed(platform.key, done, platform.trace, picks, token, o, outcomes, sights, ends);
        err := failed;
        if !failed {
          OneMoreProcessed(platform.key, platform.trace, picks, token, o, outcomes, sights, ends, outcome, sight);
          assert (outcomes + [outcome])[..|outcomes|] == outcomes;
          r, outcomes := Count(r, outcome), outcomes + [outcome];
          sights, ends := sights + [sight], ends + [|platform.trace|];
        }
        n := n + 1;
      }
    }
  }

  // Clearing a plaintext makes no mail due or late.
  lemma ClearKeepsDue(after: Account, before: Account, now: Time, picks: set<nat>, locked: set<nat>)
    requires after == ClearInvalid(before, now, picks)
    ensures DueMails(after.mails, now, locked) == DueMails(before.mails, now, locked)
  {
  }

  datatype Tally = Tally(claimed: nat, sent: nat, canceled: nat, rescheduled: nat, deadLettered: nat)

  function Count(t: Tally, outcome: Outcome): Tally {
    match outcome
    case Lost => t
    case WasCanceled => t.(canceled := t.canceled + 1)
    case WasSent => t.(sent := t.sent + 1)
    case WasRescheduled => t.(rescheduled := t.rescheduled + 1)
    case WasDeadLettered => t.(deadLettered := t.deadLettered + 1)
  }

  function TallyOf(claimed: nat, outcomes: seq<Outcome>): (t: Tally)
    ensures t.claimed == claimed
    ensures t.sent == multiset(outcomes)[WasSent] && t.canceled == multiset(outcomes)[WasCanceled]
    ensures t.rescheduled == multiset(outcomes)[WasRescheduled]
    ensures t.deadLettered == multiset(outcomes)[WasDeadLettered]
  {
    assert outcomes != [] ==> outcomes == outcomes[..|outcomes| - 1] + [outcomes[|outcomes| - 1]];
    if outcomes == [] then Tally(claimed, 0, 0, 0, 0)
    else Count(TallyOf(claimed, outcomes[..|outcomes| - 1]), outcomes[|outcomes| - 1])
  }
}
