/**
 One model call: acquire, call the provider with retries, report, write the run result, and
 release on every path. What each collaborator does is an arbitrary input; what the call does
 to them is its trace.
 */
module InvokeLlm {
  import opened Wrappers

  datatype Error =
    | RateLimited
    | Http(status: int)
    | Aborted
    | Network(code: string)
    | FetchFailed
    | Other(message: string)

  datatype Attempt =
    | Reply
    | Fail(error: Error, signalAborted: bool, sleepInterrupted: bool)

  /** What the call does to the limiter and the store, as it took effect: an acquire script that
      admitted the request, and a release call, which may fail before its script ran. */
  datatype Effect =
    | Admitted(reserved: bool)
    | ProviderCall
    | ReportSuccess
    | ReportThrottle
    | WriteResult
    | Release(ran: bool)

  /** How a limiter call ends. A call that throws may have run its script and lost only the reply. */
  datatype Sent = Done | Threw(error: Error, ran: bool)

  datatype CallArgs = CallArgs(hasInput: bool, preReserved: bool, autoConcurrency: bool, maxRetries: int,
      writesResult: bool)

  /** Where a step may throw: None means that it does not. */
  datatype World = World(
    prepare: Option<Error>,
    acquire: Sent,
    announce: Option<Error>,
    provider: nat -> Attempt,
    parse: Option<Error>,
    write: Option<Error>,
    logFailure: Option<Error>,
    release: Sent)

  /** isRetryableProviderError. */
  predicate Retryable(e: Error) {
    match e
    case RateLimited => false
    case Http(status) => status in {408, 429, 500, 502, 503, 504}
    case Aborted => false
    case Network(code) => code in {"ECONNRESET", "ETIMEDOUT", "ENOTFOUND", "EAI_AGAIN"}
    case FetchFailed => true
    case Other(_) => false
  }

  /** The failure at this attempt ends the retry loop. */
  predicate Final(a: Attempt, attempt: nat, maxRetries: int)
    requires a.Fail?
  {
    a.signalAborted || attempt >= maxRetries || !Retryable(a.error) || a.sleepInterrupted
  }

  /** What the attempts from this one on amount to: the first reply, or the first final failure. */
  function Retried(provider: nat -> Attempt, attempt: nat, maxRetries: int): Result<(), Error>
    decreases if attempt <= maxRetries then maxRetries - attempt + 1 else 0
  {
    var a := provider(attempt);
    if a.Reply? then Ok(())
    else if a.signalAborted || attempt >= maxRetries || !Retryable(a.error) then Err(a.error)
    else if a.sleepInterrupted then Err(Aborted)
    else Retried(provider, attempt + 1, maxRetries)
  }

  /** How many calls that takes. */
  function CallCount(provider: nat -> Attempt, attempt: nat, maxRetries: int): (n: nat)
    ensures n >= 1
    decreases if attempt <= maxRetries then maxRetries - attempt + 1 else 0
  {
    if provider(attempt).Reply? || Final(provider(attempt), attempt, maxRetries) then 1
    else 1 + CallCount(provider, attempt + 1, maxRetries)
  }

  /** The failures worth another attempt: timeouts, throttling, server errors and broken connections. */
  lemma WhatIsRetried(e: Error)
    ensures Retryable(e)
       <==> || e == Http(408) || e == Http(429) || e == Http(500) || e == Http(502) || e == Http(503) || e == Http(504)
            || e == Network("ECONNRESET") || e == Network("ETIMEDOUT") || e == Network("ENOTFOUND")
            || e == Network("EAI_AGAIN") || e == FetchFailed
  {
  }

  /** The attempts end with this many calls: none before the last was a reply or a final failure,
      and the last was one. */
  ghost predicate EndsAfter(provider: nat -> Attempt, maxRetries: int, calls: nat) {
    && calls >= 1
    && (forall i :: 0 <= i < calls - 1 ==> provider(i).Fail? && !Final(provider(i), i, maxRetries))
    && (provider(calls - 1).Fail? ==> Final(provider(calls - 1), calls - 1, maxRetries))
  }

  /** What the attempts amount to is read off the last of them. */
  lemma {:induction false} EndIs(provider: nat -> Attempt, attempt: nat, maxRetries: int, calls: nat)
    requires EndsAfter(provider, maxRetries, calls) && attempt < calls
    ensures CallCount(provider, attempt, maxRetries) == calls - attempt
    ensures Retried(provider, attempt, maxRetries)
         == match provider(calls - 1)
            case Reply => Ok(())
            case Fail(error, signalAborted, _) =>
              Err(if signalAborted || calls > maxRetries || !Retryable(error) then error else Aborted)
    decreases calls - attempt
  {
    hide Retryable;
    if attempt < calls - 1 {
      EndIs(provider, attempt + 1, maxRetries, calls);
    }
  }

  /** invokeProviderWithRetry: stops at the first reply or the first final failure, within
      maxRetries + 1 calls. */
  method InvokeProviderWithRetry(provider: nat -> Attempt, maxRetries: int)
    returns (r: Result<(), Error>, calls: nat)
    ensures 1 <= calls && (calls == 1 || calls <= maxRetries + 1)
    ensures forall i :: 0 <= i < calls - 1 ==> provider(i).Fail? && !Final(provider(i), i, maxRetries)
    ensures r == Retried(provider, 0, maxRetries) && calls == CallCount(provider, 0, maxRetries)
    ensures r.Ok? <==> provider(calls - 1).Reply?
    ensures r.Err? ==> Final(provider(calls - 1), calls - 1, maxRetries)
    ensures r.Err? ==>
              r.error == provider(calls - 1).error || (r.error == Aborted && provider(calls - 1).sleepInterrupted)
  {
    var attempt := 0;
    while true
      invariant 0 <= attempt && (attempt == 0 || attempt <= maxRetries)
      invariant Retried(provider, 0, maxRetries) == Retried(provider, attempt, maxRetries)
      invariant CallCount(provider, 0, maxRetries) == attempt + CallCount(provider, attempt, maxRetries)
      invariant forall i :: 0 <= i < attempt ==> provider(i).Fail? && !Final(provider(i), i, maxRetries)
      decreases maxRetries - attempt
    {
      var outcome := provider(attempt);
      if outcome.Reply? {
        return Ok(()), attempt + 1;
      }
      if outcome.signalAborted {
        return Err(outcome.error), attempt + 1;
      }
      if attempt >= maxRetries || !Retryable(outcome.error) {
        return Err(outcome.error), attempt + 1;
      }
      attempt := attempt + 1;
      if outcome.sleepInterrupted {
        return Err(Aborted), attempt;
      }
    }
  }

  // ---- what a call does, step by step ----

  /** The acquire script admitted the request. A rate-limit error is the script's own refusal. */
  predicate Admits(acquire: Sent) {
    acquire.Done? || (acquire.ran && acquire.error != RateLimited)
  }

  /** The call reserved a slot and knows it, so its finally block releases. */
  predicate Releases(args: CallArgs, w: World) {
    args.hasInput && w.prepare.None? && w.acquire.Done? && !args.preReserved
  }

  predicate Ran(sent: Sent) {
    sent.Done? || sent.ran
  }

  /** How the try block ends: the first step that throws, in program order, or success. */
  function TryOutcome(args: CallArgs, w: World): Result<(), Error> {
    if w.prepare.Some? then Err(w.prepare.value)
    else if w.acquire.Threw? then Err(w.acquire.error)
    else if w.announce.Some? then Err(w.announce.value)
    else if Retried(w.provider, 0, args.maxRetries).Err? then Retried(w.provider, 0, args.maxRetries)
    else if w.parse.Some? then Err(w.parse.value)
    else if args.writesResult && w.write.Some? then Err(w.write.value)
    else Ok(())
  }

  function Calls(n: nat): (t: seq<Effect>)
    ensures |t| == n && forall e :: e in t ==> e == ProviderCall
  {
    seq(n, _ => ProviderCall)
  }

  /** From the announcement to the run result. */
  function Work(args: CallArgs, w: World): seq<Effect> {
    if w.announce.Some? then []
    else
      Calls(CallCount(w.provider, 0, args.maxRetries))
      + (if Retried(w.provider, 0, args.maxRetries).Err? || w.parse.Some? then []
         else
           (if args.autoConcurrency then [ReportSuccess] else [])
           + (if args.writesResult then [WriteResult] else []))
  }

  function TryTrace(args: CallArgs, w: World): seq<Effect> {
    if w.prepare.Some? || !Admits(w.acquire) then []
    else [Admitted(!args.preReserved)] + (if w.acquire.Done? then Work(args, w) else [])
  }

  function ThrottleTrace(args: CallArgs, w: World): seq<Effect> {
    if args.autoConcurrency && TryOutcome(args, w) == Err(Http(429)) then [ReportThrottle] else []
  }

  function ReleaseTrace(args: CallArgs, w: World): seq<Effect> {
    if Releases(args, w) then [Release(Ran(w.release))] else []
  }

  /** Everything one call of invokeLLM does. */
  function Trace(args: CallArgs, w: World): seq<Effect> {
    if !args.hasInput then [] else TryTrace(args, w) + ThrottleTrace(args, w) + ReleaseTrace(args, w)
  }

  /** How it ends: a failed release hides the call's own outcome. */
  function Outcome(args: CallArgs, w: World): Result<(), Error> {
    var tried := TryOutcome(args, w);
    if !args.hasInput then Err(Other("invokeLLM requires messages or prompt"))
    else if Releases(args, w) && w.release.Threw? then Err(w.release.error)
    else if tried.Err? && tried.error != RateLimited && w.logFailure.Some? then Err(w.logFailure.value)
    else tried
  }

  // ---- which effects a call has ----

  /** Everything up to the parsed reply went well, after this many provider calls. */
  predicate Answered(args: CallArgs, w: World, calls: nat)
    requires calls >= 1
  {
    && args.hasInput && w.prepare.None? && w.acquire.Done? && w.announce.None?
    && w.provider(calls - 1).Reply? && w.parse.None?
  }

  function Once(wanted: bool, e: Effect): (t: seq<Effect>)
    ensures forall x :: multiset(t)[x] == if wanted && x == e then 1 else 0
  {
    if wanted then [e] else []
  }

  lemma {:induction false} OnlyCalls(n: nat)
    ensures forall e :: multiset(Calls(n))[e] == if e == ProviderCall then n else 0
  {
    if n == 0 {
      assert Calls(n) == [];
    } else {
      OnlyCalls(n - 1);
      assert Calls(n) == Calls(n - 1) + [ProviderCall];
    }
  }

  /** From the announcement on: the provider calls, then the success report and the run result, each
      once if the reply was parsed and the model and the caller want it. */
  lemma WorkIs(args: CallArgs, w: World, calls: nat)
    requires EndsAfter(w.provider, args.maxRetries, calls)
    requires args.hasInput && w.prepare.None? && w.acquire.Done? && w.announce.None?
    ensures
      var answered := Answered(args, w, calls);
      Work(args, w) == Calls(calls)
                       + Once(answered && args.autoConcurrency, ReportSuccess)
                       + Once(answered && args.writesResult, WriteResult)
  {
    hide Retried, CallCount;
    EndIs(w.provider, 0, args.maxRetries, calls);
  }

  /** How often each effect occurs in a call. */
  lemma EffectsOf(args: CallArgs, w: World, calls: nat)
    requires EndsAfter(w.provider, args.maxRetries, calls)
    ensures
      var t := multiset(Trace(args, w));
      var tried := args.hasInput && w.prepare.None?;
      && t[ProviderCall] == (if tried && w.acquire.Done? && w.announce.None? then calls else 0)
      && t[ReportSuccess] == (if Answered(args, w, calls) && args.autoConcurrency then 1 else 0)
      && t[WriteResult] == (if Answered(args, w, calls) && args.writesResult then 1 else 0)
      && t[ReportThrottle]
         == (if args.hasInput && args.autoConcurrency && TryOutcome(args, w) == Err(Http(429)) then 1 else 0)
      && t[Admitted(!args.preReserved)] == (if tried && Admits(w.acquire) then 1 else 0)
      && t[Admitted(args.preReserved)] == 0
      && t[Release(Ran(w.release))] == (if tried && w.acquire.Done? && !args.preReserved then 1 else 0)
      && t[Release(!Ran(w.release))] == 0
  {
    hide TryOutcome, TryTrace, EndsAfter, Answered;
    if args.hasInput {
      EffectsOfTry(args, w, calls);
    }
    assert args.hasInput ==>
        multiset(Trace(args, w))
        == multiset(TryTrace(args, w)) + multiset(ThrottleTrace(args, w)) + multiset(ReleaseTrace(args, w));
    assert !args.hasInput ==> !Answered(args, w, calls) by { AnsweredNeeds(args, w, calls); }
  }

  lemma AnsweredNeeds(args: CallArgs, w: World, calls: nat)
    requires EndsAfter(w.provider, args.maxRetries, calls)
    ensures calls >= 1
    ensures Answered(args, w, calls) ==> args.hasInput && w.prepare.None? && w.acquire.Done? && w.announce.None?
  {
  }

  lemma EffectsOfTry(args: CallArgs, w: World, calls: nat)
    requires EndsAfter(w.provider, args.maxRetries, calls) && args.hasInput
    ensures
      var t := multiset(TryTrace(args, w));
      && t[ProviderCall] == (if w.prepare.None? && w.acquire.Done? && w.announce.None? then calls else 0)
      && t[ReportSuccess] == (if Answered(args, w, calls) && args.autoConcurrency then 1 else 0)
      && t[WriteResult] == (if Answered(args, w, calls) && args.writesResult then 1 else 0)
      && t[Admitted(!args.preReserved)] == (if w.prepare.None? && Admits(w.acquire) then 1 else 0)
      && t[Admitted(args.preReserved)] == t[ReportThrottle] == t[Release(true)] == t[Release(false)] == 0
  {
    hide Work, EndsAfter, Answered;
    AnsweredNeeds(args, w, calls);
    if w.prepare.None? && w.acquire.Done? {
      forall e ensures multiset(Work(args, w))[e] == InWork(args, w, calls, e) {
        CountInWork(args, w, calls, e);
      }
    }
  }

  /** How often an effect occurs in the work. */
  function InWork(args: CallArgs, w: World, calls: nat, e: Effect): nat
    requires calls >= 1
  {
    match e
    case ProviderCall => if w.announce.None? then calls else 0
    case ReportSuccess => if Answered(args, w, calls) && args.autoConcurrency then 1 else 0
    case WriteResult => if Answered(args, w, calls) && args.writesResult then 1 else 0
    case _ => 0
  }

  lemma CountInWork(args: CallArgs, w: World, calls: nat, e: Effect)
    requires EndsAfter(w.provider, args.maxRetries, calls) && args.hasInput && w.prepare.None? && w.acquire.Done?
    ensures multiset(Work(args, w))[e] == InWork(args, w, calls, e)
  {
    hide Work, Calls, Once;
    if w.announce.None? {
      WorkIs(args, w, calls);
      OnlyCalls(calls);
      CountsAdd(Calls(calls), Once(Answered(args, w, calls) && args.autoConcurrency, ReportSuccess),
          Once(Answered(args, w, calls) && args.writesResult, WriteResult), e);
    } else {
      NoWork(args, w);
    }
  }

  lemma CountsAdd(a: seq<Effect>, b: seq<Effect>, c: seq<Effect>, e: Effect)
    ensures multiset(a + b + c)[e] == multiset(a)[e] + multiset(b)[e] + multiset(c)[e]
  {
    assert multiset(a + b + c) == multiset(a) + multiset(b) + multiset(c);
  }

  lemma NoWork(args: CallArgs, w: World)
    requires w.announce.Some?
    ensures Work(args, w) == []
  {
  }

  /** Where an effect stands: admission, provider calls, success report, run result, throttle report,
      release. */
  function Rank(e: Effect): nat {
    match e
    case Admitted(_) => 0
    case ProviderCall => 1
    case ReportSuccess => 2
    case WriteResult => 3
    case ReportThrottle => 4
    case Release(_) => 5
  }

  /** Effects come in that order. */
  lemma EffectsInOrder(args: CallArgs, w: World, i: nat, j: nat)
    requires i < j < |Trace(args, w)|
    ensures Rank(Trace(args, w)[i]) <= Rank(Trace(args, w)[j])
  {
    hide Retried, CallCount, TryOutcome, Work;
    WorkInOrder(args, w);
  }

  lemma WorkInOrder(args: CallArgs, w: World)
    ensures forall i :: 0 <= i < |Work(args, w)| ==> 1 <= Rank(Work(args, w)[i]) <= 3
    ensures forall i, j :: 0 <= i < j < |Work(args, w)| ==> Rank(Work(args, w)[i]) <= Rank(Work(args, w)[j])
  {
    hide Retried, CallCount;
    if w.announce.None? {
      var calls := Calls(CallCount(w.provider, 0, args.maxRetries));
      assert forall i :: 0 <= i < |calls| ==> calls[i] in calls;
    }
  }

  /** What each step of the try block throws, in program order. */
  function Throws(args: CallArgs, w: World, calls: nat): seq<Option<Error>>
    requires calls >= 1
  {
    var last := w.provider(calls - 1);
    [w.prepare,
     if w.acquire.Threw? then Some(w.acquire.error) else None,
     w.announce,
     if last.Reply? then None
     else if last.signalAborted || calls > args.maxRetries || !Retryable(last.error) then Some(last.error)
     else Some(Aborted),
     w.parse,
     if args.writesResult then w.write else None]
  }

  /** A call succeeds exactly when no step throws and a release it owes gets through; the error of any
      other is that of the release, or else of the failure log, or else of the first step that threw;
      but a rate-limit refusal passes the failure log by. */
  lemma OutcomeIs(args: CallArgs, w: World, calls: nat, k: nat)
    requires EndsAfter(w.provider, args.maxRetries, calls) && args.hasInput && k <= 6
    requires forall j :: 0 <= j < k ==> Throws(args, w, calls)[j].None?
    ensures k == 6 ==> TryOutcome(args, w) == Ok(())
    ensures k < 6 && Throws(args, w, calls)[k].Some? ==> TryOutcome(args, w) == Err(Throws(args, w, calls)[k].value)
    ensures Outcome(args, w).Ok? <==> TryOutcome(args, w).Ok? && (Releases(args, w) ==> w.release.Done?)
    ensures Releases(args, w) && w.release.Threw? ==> Outcome(args, w) == Err(w.release.error)
    ensures !(Releases(args, w) && w.release.Threw?) && TryOutcome(args, w).Err? ==>
              Outcome(args, w) == if TryOutcome(args, w) != Err(RateLimited) && w.logFailure.Some? then
                Err(w.logFailure.value) else TryOutcome(args, w)
  {
    hide Retried, CallCount, Retryable;
    EndIs(w.provider, 0, args.maxRetries, calls);
    var throws := Throws(args, w, calls);
    assert (k > 0 ==> throws[0].None?) && (k > 1 ==> throws[1].None?) && (k > 2 ==> throws[2].None?);
    assert (k > 3 ==> throws[3].None?) && (k > 4 ==> throws[4].None?) && (k > 5 ==> throws[5].None?);
  }

  // ---- the slot discipline ----

  function Delta(e: Effect): int {
    match e
    case Admitted(reserved) => if reserved then 1 else 0
    case Release(ran) => if ran then -1 else 0
    case _ => 0
  }

  /** Slots that the counter still counts for this call after a trace. */
  function SlotsHeld(trace: seq<Effect>): int {
    if trace == [] then 0 else SlotsHeld(trace[..|trace| - 1]) + Delta(trace[|trace| - 1])
  }

  /** The call is over and the counter still counts its slot: the reply of a reserving acquire was
      lost after its script ran, or the release did not get through. */
  predicate Leaks(args: CallArgs, w: World) {
    && args.hasInput && w.prepare.None? && !args.preReserved && Admits(w.acquire)
    && (w.acquire.Threw? || !Ran(w.release))
  }

  predicate TouchesSlots(e: Effect) {
    e.Admitted? || e.Release?
  }

  lemma {:induction false} HeldThrough(t: seq<Effect>, n: seq<Effect>)
    requires forall e :: e in n ==> !TouchesSlots(e)
    ensures SlotsHeld(t + n) == SlotsHeld(t)
  {
    if n == [] {
      assert t + n == t;
    } else {
      var init := n[..|n| - 1];
      assert n[|n| - 1] in n && forall e :: e in init ==> e in n;
      assert (t + n)[..|t + n| - 1] == t + init;
      HeldThrough(t, init);
    }
  }

  /** The steps between acquire and release leave the slot alone. */
  lemma MiddleIsNeutral(args: CallArgs, w: World)
    ensures forall e :: e in Work(args, w) + ThrottleTrace(args, w) ==> !TouchesSlots(e)
  {
    hide TryOutcome, Retried, CallCount;
    forall e | e in Work(args, w) ensures e == ProviderCall || e == ReportSuccess || e == WriteResult {
    }
  }

  /** A call is an admission, then work that leaves slots alone, then at most one release. */
  lemma Shape(args: CallArgs, w: World) returns (front: seq<Effect>, middle: seq<Effect>)
    ensures Trace(args, w) == front + middle + ReleaseTrace(args, w)
    ensures forall e :: e in middle ==> !TouchesSlots(e)
    ensures front == if args.hasInput && w.prepare.None? && Admits(w.acquire) then [Admitted(!args.preReserved)] else []
  {
    hide Work, ThrottleTrace;
    MiddleIsNeutral(args, w);
    front := if args.hasInput && w.prepare.None? && Admits(w.acquire) then [Admitted(!args.preReserved)] else [];
    middle := (if front != [] && w.acquire.Done? then Work(args, w) else [])
        + (if args.hasInput then ThrottleTrace(args, w) else []);
    forall e | e in middle ensures !TouchesSlots(e) {
      assert e in Work(args, w) || e in ThrottleTrace(args, w);
    }
  }

  lemma HeldAfter(front: seq<Effect>, middle: seq<Effect>, release: seq<Effect>, i: nat)
    requires i <= |front + middle + release|
    requires forall e :: e in middle ==> !TouchesSlots(e)
    requires |front| <= 1 && |release| <= 1
    ensures SlotsHeld((front + middle + release)[..i])
         == if i == 0 then 0
            else if i <= |front + middle| then SlotsHeld(front)
            else SlotsHeld(front) + Delta(release[0])
  {
    var all := front + middle + release;
    if i > |front + middle| {
      assert all[..i][..i - 1] == front + middle;
      HeldThrough(front, middle);
    } else if i > 0 {
      if |front| <= i {
        assert all[..i] == front + middle[..i - |front|];
        HeldThrough(front, middle[..i - |front|]);
      }
    }
  }

  /** At every moment the call holds no slot or one; it only ever admits first, and only ever
      releases last; and when it is over it still holds a slot exactly when it leaks. */
  lemma SlotDiscipline(args: CallArgs, w: World, i: nat)
    requires i <= |Trace(args, w)|
    ensures 0 <= SlotsHeld(Trace(args, w)[..i]) <= 1
    ensures i == |Trace(args, w)| ==> SlotsHeld(Trace(args, w)) == if Leaks(args, w) then 1 else 0
    ensures 0 < i < |Trace(args, w)| ==> !Trace(args, w)[i].Admitted?
    ensures i < |Trace(args, w)| && Trace(args, w)[i].Release? ==>
              i == |Trace(args, w)| - 1 && SlotsHeld(Trace(args, w)[..i]) == 1
  {
    hide Trace, TryTrace, ThrottleTrace, Work, SlotsHeld;
    var front, middle := Shape(args, w);
    var release := ReleaseTrace(args, w);
    HeldAfter(front, middle, release, i);
    FrontHeld(args.preReserved);
    var all := front + middle + release;
    if i == |all| {
      assert all[..i] == all;
    }
    if i < |all| && i >= |front| && i < |front + middle| {
      assert all[i] in middle;
    }
  }

  lemma FrontHeld(preReserved: bool)
    ensures SlotsHeld([]) == 0 && SlotsHeld([Admitted(!preReserved)]) == if preReserved then 0 else 1
  {
    assert [Admitted(!preReserved)][..0] == [];
  }

  /** invokeLLM. Its steps are exactly those of Trace and its end that of Outcome; a release is
      called exactly when a slot was reserved, once, and last; the slot stays counted if and only
      if the call leaks; the run result is written, once and after every provider call and the success
      report, exactly when a parsed reply was there to write, and success is reported likewise; a
      throttle is reported exactly when the try block ended in a 429; and a rate-limit refusal does nothing. */
  method InvokeLLM(args: CallArgs, w: World)
    returns (r: Result<(), Error>, trace: seq<Effect>, ghost calls: nat)
    ensures trace == Trace(args, w) && r == Outcome(args, w)
    ensures EndsAfter(w.provider, args.maxRetries, calls)
    ensures multiset(trace)[WriteResult]
         == if args.hasInput && w.prepare.None? && w.acquire.Done? && w.announce.None?
               && w.provider(calls - 1).Reply? && w.parse.None? && args.writesResult then 1 else 0
    ensures multiset(trace)[ReportSuccess]
         == if args.hasInput && w.prepare.None? && w.acquire.Done? && w.announce.None?
               && w.provider(calls - 1).Reply? && w.parse.None? && args.autoConcurrency then 1 else 0
    ensures forall i, j :: 0 <= i < j < |trace| && trace[i] == WriteResult ==>
              trace[j] != ProviderCall && trace[j] != ReportSuccess && trace[j] != WriteResult
    ensures forall i, j :: 0 <= i < j < |trace| && trace[i] == ReportSuccess ==> trace[j] != ProviderCall
    ensures SlotsHeld(trace) == if Leaks(args, w) then 1 else 0
    ensures forall i :: 0 <= i < |trace| && trace[i].Release? ==> i == |trace| - 1
    ensures (exists i :: 0 <= i < |trace| && trace[i].Release?) <==> Releases(args, w)
    ensures WriteResult in trace ==> exists n: nat :: w.provider(n).Reply?
    ensures ReportThrottle in trace <==> args.hasInput && args.autoConcurrency && TryOutcome(args, w) == Err(Http(429))
    ensures args.hasInput && w.prepare.None? && w.acquire.Threw? && w.acquire.error == RateLimited ==>
              r == Err(RateLimited) && trace == []
  {
    hide SlotsHeld, Leaks, TryTrace, TryOutcome, Releases, Trace, Outcome, EndsAfter;
    calls := AttemptsEnd(w.provider, args.maxRetries);
    ShownBy(args, w, calls);
    if !args.hasInput {
      EmptyTrace(args, w);
      return Err(Other("invokeLLM requires messages or prompt")), [], calls;
    }
    var acquired;
    ghost var replied;
    r, acquired, trace, replied := TryCall(args, w);
    r, trace := Settle(args, w, r, acquired, trace);
    WhatTraceShows(args, w);
  }

  /** Its catch and finally blocks. */
  method Settle(args: CallArgs, w: World, tried: Result<(), Error>, acquired: bool, done: seq<Effect>)
    returns (r: Result<(), Error>, trace: seq<Effect>)
    requires args.hasInput && tried == TryOutcome(args, w) && done == TryTrace(args, w)
    requires acquired == Releases(args, w)
    ensures trace == Trace(args, w) && r == Outcome(args, w)
  {
    hide TryTrace, TryOutcome, Releases;
    r, trace := tried, done;
    if r.Err? && r.error != RateLimited {
      if args.autoConcurrency && r.error == Http(429) {
        trace := trace + [ReportThrottle];
      }
      if w.logFailure.Some? {
        r := Err(w.logFailure.value);
      }
    }
    if acquired {
      trace := trace + [Release(Ran(w.release))];
      if w.release.Threw? {
        r := Err(w.release.error);
      }
    }
  }

  lemma AttemptsEnd(provider: nat -> Attempt, maxRetries: int) returns (calls: nat)
    ensures EndsAfter(provider, maxRetries, calls)
  {
    calls := 1;
    while provider(calls - 1).Fail? && !Final(provider(calls - 1), calls - 1, maxRetries)
      invariant calls >= 1 && (calls > 1 ==> calls <= maxRetries + 1)
      invariant forall i :: 0 <= i < calls - 1 ==> provider(i).Fail? && !Final(provider(i), i, maxRetries)
      decreases maxRetries + 1 - calls
    {
      calls := calls + 1;
    }
  }

  lemma ShownBy(args: CallArgs, w: World, calls: nat)
    requires EndsAfter(w.provider, args.maxRetries, calls)
    ensures
      var trace := Trace(args, w);
      && multiset(trace)[WriteResult] == (if Answered(args, w, calls) && args.writesResult then 1 else 0)
      && multiset(trace)[ReportSuccess] == (if Answered(args, w, calls) && args.autoConcurrency then 1 else 0)
      && (forall i, j :: 0 <= i < j < |trace| && trace[i] == WriteResult ==>
            trace[j] != ProviderCall && trace[j] != ReportSuccess && trace[j] != WriteResult)
      && (forall i, j :: 0 <= i < j < |trace| && trace[i] == ReportSuccess ==> trace[j] != ProviderCall)
  {
    hide Trace, TryOutcome, EndsAfter, Answered;
    EffectsOf(args, w, calls);
    var trace := Trace(args, w);
    forall i, j | 0 <= i < j < |trace| ensures Rank(trace[i]) <= Rank(trace[j])
    {
      EffectsInOrder(args, w, i, j);
    }
    forall i, j | 0 <= i < j < |trace| && trace[i] == WriteResult ensures trace[j] != WriteResult {
      if trace[j] == WriteResult {
        Twice(trace, i, j);
      }
    }
  }

  lemma Twice(t: seq<Effect>, i: nat, j: nat)
    requires i < j < |t| && t[i] == t[j]
    ensures multiset(t)[t[i]] >= 2
  {
    assert t == t[..j] + [t[j]] + t[j + 1..];
    assert t[..j][i] == t[j];
    assert t[j] in multiset(t[..j]);
  }

  /** The try block of invokeLLM, up to the first throw. */
  method TryCall(args: CallArgs, w: World)
      returns (r: Result<(), Error>, acquired: bool, trace: seq<Effect>, ghost replied: bool)
    requires args.hasInput
    ensures r == TryOutcome(args, w) && trace == TryTrace(args, w) && acquired == Releases(args, w)
    ensures replied ==> exists n: nat :: w.provider(n).Reply?
    ensures WriteResult in trace ==> replied
  {
    hide Retried, CallCount;
    acquired, trace, replied := false, [], false;
    if w.prepare.Some? {
      return Err(w.prepare.value), acquired, trace, replied;
    }
    if w.acquire.Threw? {
      if w.acquire.ran && w.acquire.error != RateLimited {
        trace := [Admitted(!args.preReserved)];
      }
      return Err(w.acquire.error), acquired, trace, replied;
    }
    trace := [Admitted(!args.preReserved)];
    acquired := !args.preReserved;
    if w.announce.Some? {
      return Err(w.announce.value), acquired, trace, replied;
    }
    var n;
    r, n := InvokeProviderWithRetry(w.provider, args.maxRetries);
    trace := trace + Calls(n);
    if r.Err? {
      return;
    }
    replied := true;
    if w.parse.Some? {
      return Err(w.parse.value), acquired, trace, replied;
    }
    r := Ok(());
    if args.autoConcurrency {
      trace := trace + [ReportSuccess];
    }
    if args.writesResult {
      trace := trace + [WriteResult];
      if w.write.Some? {
        r := Err(w.write.value);
      }
    }
  }

  lemma EmptyTrace(args: CallArgs, w: World)
    requires !args.hasInput
    ensures SlotsHeld([]) == 0 && !Leaks(args, w) && !Releases(args, w)
    ensures Trace(args, w) == [] && Outcome(args, w) == Err(Other("invokeLLM requires messages or prompt"))
  {
  }

  lemma WhatTraceShows(args: CallArgs, w: World)
    requires args.hasInput
    ensures var trace := Trace(args, w);
            && SlotsHeld(trace) == (if Leaks(args, w) then 1 else 0)
            && (forall i :: 0 <= i < |trace| && trace[i].Release? ==> i == |trace| - 1)
            && ((exists i :: 0 <= i < |trace| && trace[i].Release?) <==> Releases(args, w))
            && (w.prepare.None? && w.acquire.Threw? && w.acquire.error == RateLimited ==>
                Outcome(args, w) == Err(RateLimited) && trace == [])
            && (ReportThrottle in trace <==> args.autoConcurrency && TryOutcome(args, w) == Err(Http(429)))
            && (WriteResult in trace ==> WriteResult in TryTrace(args, w))
  {
    NoThrottleInTry(args, w);
    RefusalDoesNothing(args, w);
    hide SlotsHeld, TryTrace, ThrottleTrace, TryOutcome;
    ThrottleTraceIs(args, w);
    var trace := Trace(args, w);
    SlotDiscipline(args, w, |trace|);
    forall i | 0 <= i < |trace| && trace[i].Release? ensures i == |trace| - 1 && Releases(args, w) {
      SlotDiscipline(args, w, i);
      ReleaseIsMeant(args, w, i);
    }
    if Releases(args, w) {
      assert trace[|trace| - 1].Release?;
    }
  }

  lemma NoThrottleInTry(args: CallArgs, w: World)
    ensures ReportThrottle !in TryTrace(args, w)
  {
    hide Retried, CallCount;
  }

  lemma ThrottleTraceIs(args: CallArgs, w: World)
    ensures ThrottleTrace(args, w)
         == if args.autoConcurrency && TryOutcome(args, w) == Err(Http(429)) then [ReportThrottle] else []
  {
    hide TryOutcome;
  }

  lemma RefusalDoesNothing(args: CallArgs, w: World)
    requires args.hasInput
    ensures w.prepare.None? && w.acquire.Threw? && w.acquire.error == RateLimited ==>
              Outcome(args, w) == Err(RateLimited) && Trace(args, w) == []
  {
  }

  lemma ReleaseIsMeant(args: CallArgs, w: World, i: nat)
    requires i < |Trace(args, w)| && Trace(args, w)[i].Release?
    ensures Releases(args, w)
  {
    hide Trace, TryTrace, ThrottleTrace;
    var front, middle := Shape(args, w);
    assert forall k :: |front| <= k < |front + middle| ==> Trace(args, w)[k] in middle;
  }
}
