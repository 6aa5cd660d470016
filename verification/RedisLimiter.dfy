/**
 The limiter client: the scripts as commands any worker may send, and the acquire polling loop.
 */
module RedisLimiter {
  import opened Wrappers
  import opened SlidingWindow
  import opened Adaptive
  import opened EffectiveConcurrency
  import opened RedisStore
  import opened RetryHints
  import opened RealFacts
  import opened ConcurrencyPeak
  import opened LimiterRuns

  datatype Command =
    | PassTime(ms: nat)
    | SendAcquire(args: AcquireArgs)
    | SendRelease
    | SendReport(outcome: Outcome)
    | SendUsage
    | DropExpired(keys: Keys)

  /** Request ids are fresh UUIDs: absent from the log and different from each other. */
  ghost predicate Fresh(log: seq<Admission>, cs: seq<Command>) {
    && (forall i :: 0 <= i < |cs| && cs[i].SendAcquire? ==> Absent(log, cs[i].args.request))
    && (forall i, j :: 0 <= i < j < |cs| && cs[i].SendAcquire? && cs[j].SendAcquire? ==>
          cs[i].args.request != cs[j].args.request)
  }

  ghost predicate Absent(log: seq<Admission>, request: string) {
    forall i :: 0 <= i < |log| ==> log[i].request != request
  }

  /** The event that a command stands for. */
  ghost predicate StandsFor(c: Command, e: Event) {
    match c
    case PassTime(ms) => e == Elapse(ms)
    case SendAcquire(a) =>
      e.Attempt? && e.args == a && (a.ceiling >= 1 ==> 1 <= e.effective <= a.ceiling)
      && (!a.autoConcurrency ==> e.effective == a.ceiling)
    case SendRelease => e == GiveBack
    case DropExpired(_) => e == Quiet || e == SlotsLost
    case _ => e == Quiet
  }

  /** Expiry loses slots exactly when it takes the counter key, past its deadline and in use. */
  function ExpiryOf(v: View, keys: Keys): Event {
    if keys.concurrency && v.slotsUntil <= v.now && v.inUse > 0 then SlotsLost else Quiet
  }

  /** The stored averages and factor change by a report, and are gone once their key expired. */
  ghost predicate HashAfter(c: Command, before: Option<Hash>, after: Option<Hash>, t: Tuning) {
    match c
    case SendReport(o) => after == Some(Reported(before, o, t))
    case DropExpired(keys) => after == before || (keys.autostate && after == None)
    case _ => after == before
  }

  method Send(s: Store, c: Command) returns (ghost e: Event)
    requires s.Valid() && (c.SendAcquire? ==> s.Unseen(c.args.request))
    modifies s
    ensures s.Valid() && StandsFor(c, e) && Possible(old(s.View()), e)
    ensures s.View() == Next(old(s.View()), e)
    ensures e.SlotsLost? <==> c.DropExpired? && s.InUse() != old(s.InUse())
    ensures c.DropExpired? ==> e == ExpiryOf(old(s.View()), c.keys)
    ensures HashAfter(c, old(s.Fields()), s.Fields(), s.settings.tuning)
  {
    hide Live, Backs, NotAfter, Image, Judge, Compute, Reported, EarliestTpm, OldestLive, PassesTpm,
      RoundHalfUp, HintRight, PeaksRight, Grown, Remaining, Dropped, Shown, NonNegative, PeakOf, Times, Tokens;
    match c
    case PassTime(ms) =>
      s.Tick(ms);
      e := Elapse(ms);
    case SendAcquire(a) =>
      var r := s.Acquire(a);
      e := Attempt(a, r.effective);
      ComputeInRange(old(s.Fields()), a.rpmLimit, a.tpmLimit, a.ceiling, a.tokens, s.settings.tuning.defaultLatency);
    case SendRelease =>
      var _ := s.Release();
      e := GiveBack;
    case SendReport(o) =>
      var _ := s.Report(o);
      e := Quiet;
    case SendUsage =>
      var _ := s.ReadUsage();
      e := Quiet;
    case DropExpired(keys) =>
      s.Expire(keys);
      e := if s.InUse() == old(s.InUse()) then Quiet else SlotsLost;
  }

  lemma FreshStep(log: seq<Admission>, c: Command, cs: seq<Command>, e: Event, v: View)
    requires Fresh(log, [c] + cs) && v.log == log && StandsFor(c, e)
    ensures Fresh(Next(v, e).log, cs)
  {
    forall i | 0 <= i < |cs| && cs[i].SendAcquire? ensures Absent(Next(v, e).log, cs[i].args.request) {
      assert ([c] + cs)[i + 1] == cs[i] && ([c] + cs)[0] == c;
    }
    forall i, j | 0 <= i < j < |cs| && cs[i].SendAcquire? && cs[j].SendAcquire?
      ensures cs[i].args.request != cs[j].args.request
    {
      assert ([c] + cs)[i + 1] == cs[i] && ([c] + cs)[j + 1] == cs[j];
    }
  }

  lemma NoEvents(v: View)
    ensures Replay(v, []) == v && Lawful(v, [])
  {
  }

  /** Every sequence of scripts, clock ticks and expiries is a run of the plain log: the cached
      total, the lazy pruning and the TTLs are invisible. `rest` is what is sent later. */
  method SendAll(s: Store, cs: seq<Command>, ghost rest: seq<Command>) returns (ghost es: seq<Event>)
    requires s.Valid() && Fresh(s.log, cs + rest)
    modifies s
    ensures s.Valid() && Fresh(s.log, rest)
    ensures |es| == |cs| && forall i :: 0 <= i < |cs| ==> StandsFor(cs[i], es[i])
    ensures s.View() == Replay(old(s.View()), es) && Lawful(old(s.View()), es)
  {
    hide Next, Possible, Replay, Lawful, Live, Backs, NotAfter, Image;
    NoEvents(s.View());
    es := [];
    for i := 0 to |cs|
      invariant s.Valid() && Fresh(s.log, cs[i..] + rest)
      invariant |es| == i && forall j :: 0 <= j < i ==> StandsFor(cs[j], es[j])
      invariant s.View() == Replay(old(s.View()), es) && Lawful(old(s.View()), es)
    {
      assert cs[i..] + rest == [cs[i]] + (cs[i + 1..] + rest);
      assert ([cs[i]] + (cs[i + 1..] + rest))[0] == cs[i];
      ghost var before := s.View();
      ghost var e := Send(s, cs[i]);
      FreshStep(before.log, cs[i], cs[i + 1..] + rest, e, before);
      LawfulStep(old(s.View()), es, e);
      es := es + [e];
    }
    assert cs[|cs|..] + rest == rest;
  }

  /** SendAll for a pause of the polling loop. */
  method SendOthers(s: Store, cs: seq<Command>, ghost rest: seq<Command>)
    requires s.Valid() && Fresh(s.log, cs + rest)
    modifies s
    ensures s.Valid() && Fresh(s.log, rest)
    ensures cs == [] ==> s.View() == old(s.View()) && s.Fields() == old(s.Fields())
  {
    if |cs| > 0 {
      var _ := SendAll(s, cs, rest);
    } else {
      assert cs + rest == rest;
    }
  }

  /** The history of a store that starts empty and only ever sees one pair of limits is safe at
      every instant, whatever was sent, however time passed and whichever keys expired. */
  method SendAllUnderFixedLimits(s: Store, cs: seq<Command>, rpmLimit: int, tpmLimit: int)
    requires s.Valid() && s.log == [] && Fresh(s.log, cs) && rpmLimit > 0 && tpmLimit > 0
    requires forall i :: 0 <= i < |cs| && cs[i].SendAcquire? ==>
        cs[i].args.rpmLimit == rpmLimit && cs[i].args.tpmLimit == tpmLimit
    modifies s
    ensures s.Valid()
    ensures RpmSafe(s.log, s.settings.window, rpmLimit) && TpmSafe(s.log, s.settings.window, tpmLimit)
  {
    hide Replay, Live, Backs, NotAfter, Image, Within;
    assert cs + [] == cs;
    ghost var es := SendAll(s, cs, []);
    EmptyIsSafe(s.settings.window, rpmLimit);
    EmptyIsSafe(s.settings.window, tpmLimit);
    assert forall i {:trigger es[i]} :: 0 <= i < |es| ==> StandsFor(cs[i], es[i]);
    RunsKeepRpmSafe(old(s.View()), es, rpmLimit);
    RunsKeepTpmSafe(old(s.View()), es, tpmLimit);
  }

  /** And if every attempt carries a ceiling between one and c, the counter never exceeds c. */
  method SendAllUnderCeiling(s: Store, cs: seq<Command>, c: int)
    requires s.Valid() && s.InUse() == 0 && Fresh(s.log, cs) && c >= 0
    requires forall i :: 0 <= i < |cs| && cs[i].SendAcquire? ==> 1 <= cs[i].args.ceiling <= c
    modifies s
    ensures s.Valid() && s.InUse() <= c
  {
    hide Replay, Live, Backs, NotAfter, Image, Within;
    assert cs + [] == cs;
    ghost var es := SendAll(s, cs, []);
    assert forall i {:trigger es[i]} :: 0 <= i < |es| ==> StandsFor(cs[i], es[i]);
    RunsKeepCeiling(old(s.View()), es, c);
  }

  // ---- the polling loop ----

  /** One sleep: how much later than asked it ends, how far the store's clock gets during a sleep of
      a given length, and what other workers send meanwhile. */
  datatype Pause = Pause(overrun: nat, advance: nat -> nat, others: seq<Command>)

  datatype RateLimited = RateLimited(reason: Verdict, retryAfter: int)

  function Others(pauses: seq<Pause>): seq<Command> {
    if pauses == [] then [] else pauses[0].others + Others(pauses[1..])
  }

  function Longer(a: int, b: int): int { if a >= b then a else b }

  /** Attempts the loop may need: one per poll interval (of at least 1 ms) until the timeout, and one more. */
  function AttemptBound(timeout: int, poll: int): int {
    var p := Longer(1, poll);
    if timeout <= 0 then 1 else (timeout + p - 1) / p + 1
  }

  /** The sleep of n rounds, each at least one interval long. */
  function Slept(n: nat, interval: int): int { n * interval }

  lemma SleptMore(n: nat, interval: int)
    ensures Slept(n + 1, interval) == Slept(n, interval) + interval && Slept(0, interval) == 0
  {
  }

  lemma AttemptsFit(n: nat, timeout: int, poll: int)
    requires n == 0 || (timeout > 0 && Slept(n - 1, Longer(1, poll)) < timeout)
    ensures n + 1 <= AttemptBound(timeout, poll)
  {
    if n > 0 && timeout > 0 {
      var p := Longer(1, poll);
      var q := (timeout + p - 1) / p;
      assert n * p <= timeout + p - 1 < (q + 1) * p;
      Cancel(n, q + 1, p);
    }
  }

  lemma Cancel(a: int, b: int, p: int)
    requires a * p < b * p && p >= 1
    ensures a < b
  {
  }

  /** The slots that the adaptive state allows this request at this moment. */
  function Allowed(s: Store, a: AcquireArgs): int
    reads s
  {
    if a.autoConcurrency then s.Derivation(a, s.Fields()).effective else a.ceiling
  }

  /** AcquireResult: the allowance with the factor and the latency it came from, as reported. */
  datatype Allowance = Allowance(effective: int, backoff: real, latency: real)

  ghost predicate AllowanceRight(s: Store, a: AcquireArgs, r: Allowance)
    reads s
  {
    var d := s.Derivation(a, s.Fields());
    && r.effective == Allowed(s, a)
    && (!a.autoConcurrency ==> r.backoff == 1.0)
    && (a.autoConcurrency ==> d.bf - 0.0005 <= r.backoff <= d.bf + 0.0005)
    && (!a.autoConcurrency || d.lat < 0.0 ==> r.latency == s.settings.tuning.defaultLatency)
    && (a.autoConcurrency && d.lat >= 0.0 ==> d.lat - 0.5 <= r.latency <= d.lat + 0.5)
  }

  lemma Thousandths(x: real)
    ensures x - 0.0005 <= Over(RoundHalfUp(Times(x, 1000.0)) as real, 1000.0) <= x + 0.0005
    ensures RoundHalfUp(x) as real - 0.5 <= x <= RoundHalfUp(x) as real + 0.5
    ensures x >= 0.0 ==> RoundHalfUp(x) >= 0
    ensures Over(1000.0, 1000.0) == 1.0
  {
    var scaled := RoundHalfUp(Times(x, 1000.0)) as real;
    assert scaled - 0.5 <= x * 1000.0 <= scaled + 0.5;
  }

  /** The reply of a granted acquire, in the caller's units. */
  method Granting(s: Store, a: AcquireArgs, reply: Reply) returns (r: Allowance)
    requires reply.effective == Allowed(s, a)
    requires reply.bfOut == if a.autoConcurrency then RoundHalfUp(Times(s.Derivation(a, s.Fields()).bf, 1000.0))
        else 1000
    requires reply.latOut == if a.autoConcurrency then Shown(NonNegative(s.Derivation(a, s.Fields()).lat)) else -1
    ensures AllowanceRight(s, a, r)
  {
    hide RoundHalfUp, Times, Over, Compute;
    ghost var d := s.Derivation(a, s.Fields());
    Thousandths(d.bf);
    Thousandths(d.lat);
    r := Allowance(reply.effective, Over(reply.bfOut as real, 1000.0),
                   if reply.latOut >= 0 then reply.latOut as real else s.settings.tuning.defaultLatency);
  }

  /** One pass of the loop body: the script either admits this request, once, or leaves the log
      alone and says which limit rejects it and when to come back. */
  method TryOnce(s: Store, a: AcquireArgs, ghost later: seq<Command>) returns (r: Result<Allowance, RateLimited>)
    requires s.Valid() && Fresh(s.log, later + [SendAcquire(a)])
    modifies s
    ensures s.Valid()
    ensures Occurrences(s.log, a.request) == if r.Ok? then 1 else 0
    ensures s.log == old(s.log) + if r.Ok? then [Admission(s.now, a.tokens, a.request)] else []
    ensures r.Ok? ==> AllowanceRight(s, a, r.value)
    ensures r.Err? ==> RejectionRight(s, a, r.error) && s.View() == old(s.View()) && s.Fields() == old(s.Fields())
  {
    hide Live, Backs, NotAfter, Image, Compute, EarliestTpm, OldestLive, PassesTpm, RoundHalfUp, Times,
      PeaksRight, Judge, HintRight;
    LastIsAbsent(s.log, later, a);
    ghost var before := s.log;
    AbsentOccurrences(before, a.request);
    var reply := s.Acquire(a);
    if reply.verdict != Granted {
      return Err(RateLimited(reply.verdict, reply.retryAfter));
    }
    assert s.log[..|s.log| - 1] == before;
    var allowance := Granting(s, a, reply);
    return Ok(allowance);
  }

  /** The error names the limit that rejects the request now, under the allowance of now, with the
      hint that goes with it. */
  ghost predicate RejectionRight(s: Store, a: AcquireArgs, e: RateLimited)
    reads s
  {
    e.reason != Granted && Judge(s.View(), a, Allowed(s, a)) == e.reason
        && HintRight(s.View(), a, e.reason, e.retryAfter)
  }

  // ---- what the hints buy ----

  function OverrunOf(pauses: seq<Pause>, n: nat): nat {
    if n < |pauses| then pauses[n].overrun else 0
  }

  /** The time of all turns that ended in a sleep: the script call, the sleep, and its overrun. */
  function Spent(trips: nat -> nat, pauses: seq<Pause>, sleeps: seq<nat>): int {
    if sleeps == [] then 0
    else
      var n := |sleeps| - 1;
      Spent(trips, pauses, sleeps[..n]) + trips(n) + sleeps[n] + OverrunOf(pauses, n)
  }

  /** One rejected attempt: the store and the allowance it met, and what the script answered. */
  datatype Rejection = Rejection(view: View, allowed: int, error: RateLimited)

  ghost predicate Rejected(a: AcquireArgs, j: Rejection) {
    Judge(j.view, a, j.allowed) == j.error.reason != Granted && HintRight(j.view, a, j.error.reason, j.error.retryAfter)
  }

  /** After a rejection the loop sleeps as long as the hint says, at least a poll interval, and never
      longer than what remains. */
  ghost predicate SleepRight(a: AcquireArgs, j: Rejection, sleep: nat, remaining: int, poll: int) {
    && Rejected(a, j) && 1 <= sleep <= remaining
    && sleep == if Longer(j.error.retryAfter, poll) <= remaining then Longer(j.error.retryAfter, poll) else remaining
  }

  ghost predicate SleepsRight(a: AcquireArgs, trips: nat -> nat, pauses: seq<Pause>, js: seq<Rejection>,
      sleeps: seq<nat>, timeout: int, poll: int) {
    |js| == |sleeps| && forall i :: 0 <= i < |sleeps| ==> SleepRightAt(a, trips, pauses, js, sleeps, i, timeout, poll)
  }

  ghost predicate SleepRightAt(a: AcquireArgs, trips: nat -> nat, pauses: seq<Pause>, js: seq<Rejection>,
      sleeps: seq<nat>, i: nat, timeout: int, poll: int)
    requires i < |sleeps| == |js|
  {
    SleepRight(a, js[i], sleeps[i], timeout - (Spent(trips, pauses, sleeps[..i]) + trips(i)), poll)
  }

  lemma SpentMore(trips: nat -> nat, pauses: seq<Pause>, sleeps: seq<nat>, sleep: nat)
    ensures Spent(trips, pauses, sleeps + [sleep])
         == Spent(trips, pauses, sleeps) + trips(|sleeps|) + sleep + OverrunOf(pauses, |sleeps|)
    ensures Spent(trips, pauses, []) == 0
  {
    assert (sleeps + [sleep])[..|sleeps|] == sleeps;
  }

  lemma NoSleeps(a: AcquireArgs, trips: nat -> nat, pauses: seq<Pause>, timeout: int, poll: int)
    ensures SleepsRight(a, trips, pauses, [], [], timeout, poll)
  {
  }

  lemma SleepStaysRight(a: AcquireArgs, trips: nat -> nat, pauses: seq<Pause>, js: seq<Rejection>, sleeps: seq<nat>,
      j: Rejection, sleep: nat, i: nat, timeout: int, poll: int)
    requires i < |sleeps| == |js| && SleepRightAt(a, trips, pauses, js, sleeps, i, timeout, poll)
    ensures SleepRightAt(a, trips, pauses, js + [j], sleeps + [sleep], i, timeout, poll)
  {
    hide SleepRight, Spent;
    assert (sleeps + [sleep])[..i] == sleeps[..i];
  }

  lemma SleepsMore(a: AcquireArgs, trips: nat -> nat, pauses: seq<Pause>, js: seq<Rejection>, sleeps: seq<nat>,
      j: Rejection, sleep: nat, timeout: int, poll: int)
    requires SleepsRight(a, trips, pauses, js, sleeps, timeout, poll)
    requires SleepRight(a, j, sleep, timeout - (Spent(trips, pauses, sleeps) + trips(|sleeps|)), poll)
    ensures SleepsRight(a, trips, pauses, js + [j], sleeps + [sleep], timeout, poll)
  {
    var all, them := sleeps + [sleep], js + [j];
    assert SleepRightAt(a, trips, pauses, them, all, |sleeps|, timeout, poll) by {
      hide SleepRight, Spent;
      assert all[..|sleeps|] == sleeps && all[|sleeps|] == sleep && them[|sleeps|] == j;
    }
    hide SleepRightAt;
    forall i | 0 <= i < |all| ensures SleepRightAt(a, trips, pauses, them, all, i, timeout, poll) {
      if i < |sleeps| {
        SleepStaysRight(a, trips, pauses, js, sleeps, j, sleep, i, timeout, poll);
      }
    }
  }

  /** The request fits its limits, a slot is free if it wants one, and no live admissions exceed the
      request limit. */
  ghost predicate Admissible(v: View, a: AcquireArgs, allowed: int) {
    && (a.tpmLimit > 0 ==> a.tokens <= a.tpmLimit)
    && (a.rpmLimit > 0 ==> |Live(v.log, v.now - v.window)| <= a.rpmLimit)
    && (a.reserve && allowed > 0 ==> v.inUse + 1 <= allowed)
  }

  /** Nobody else sends anything and the store's clock does not fall behind the sleeps. */
  ghost predicate Undisturbed(pauses: seq<Pause>) {
    forall k :: 0 <= k < |pauses| ==> pauses[k].others == [] && forall ms: nat :: pauses[k].advance(ms) >= ms
  }

  /** The timeout leaves room for two full waits. */
  predicate Patient(window: int, timeout: int, poll: int, trips: nat -> nat, pauses: seq<Pause>) {
    timeout >= trips(0) + OverrunOf(pauses, 0) + trips(1) + 2 * Longer(window, poll)
  }

  /** An acquire that only has to wait. */
  ghost predicate Calm(s: Store, a: AcquireArgs, timeout: int, poll: int, trips: nat -> nat, pauses: seq<Pause>)
    reads s
  {
    && Admissible(s.View(), a, Allowed(s, a)) && Undisturbed(pauses)
    && Patient(s.settings.window, timeout, poll, trips, pauses)
  }

  /** Where it stands after n rejections. */
  ghost predicate OnCourse(v: View, a: AcquireArgs, allowed: int, n: nat, elapsed: int, timeout: int, poll: int,
                           trips: nat -> nat, pauses: seq<Pause>) {
    && n <= 2 && Admissible(v, a, allowed) && OnTrack(n, v, a)
    && Undisturbed(pauses) && Patient(v.window, timeout, poll, trips, pauses)
    && (n == 0 ==> elapsed == 0)
    && (n == 1 ==> elapsed <= trips(0) + OverrunOf(pauses, 0) + Longer(v.window, poll))
  }

  /** One more rejection on course: the sleep is the whole wait, and afterwards one more limit has room. */
  lemma CourseGoesOn(v: View, later: View, a: AcquireArgs, allowed: int, n: nat, elapsed: int, timeout: int, poll: int,
                     trips: nat -> nat, pauses: seq<Pause>, e: RateLimited, sleep: int)
    requires OnCourse(v, a, allowed, n, elapsed, timeout, poll, trips, pauses)
    requires Judge(v, a, allowed) == e.reason != Granted && HintRight(v, a, e.reason, e.retryAfter)
    requires NotAfter(v.log, v.now) && v.window > 0
    requires
      var wait := Longer(e.retryAfter, poll);
      var remaining := timeout - (elapsed + trips(n));
      sleep == if wait <= remaining then wait else remaining
    requires sleep >= 0 ==> later == v.(now := later.now) && later.now >= v.now + sleep
    ensures sleep >= 1
    ensures OnCourse(later, a, allowed, n + 1, elapsed + trips(n) + sleep + OverrunOf(pauses, n), timeout, poll,
        trips, pauses)
  {
    hide Live, Tokens, HintRight, OnTrack, Undisturbed;
    if n == 2 {
      RoomIsEnough(v, a, allowed);
    }
    HintShape(v, a, e);
    HintWithinWindow(v, a, e.reason, e.retryAfter);
    WaitingHelps(n, v, later, a, allowed, e.retryAfter);
    RoomStays(v, later, a);
  }

  lemma HintShape(v: View, a: AcquireArgs, e: RateLimited)
    requires HintRight(v, a, e.reason, e.retryAfter) && e.reason != Granted && v.window > 0
    ensures e.retryAfter >= 1
  {
    hide Live, Tokens;
  }

  /** One turn of the loop: an attempt, and after a rejection either the end of the timeout or a sleep. */
  method Turn(s: Store, a: AcquireArgs, timeout: int, poll: int, trips: nat -> nat, pauses: seq<Pause>,
              n: nat, begun: int, ghost calm: bool, ghost allowed: int)
    returns (done: bool, r: Result<Allowance, RateLimited>, elapsed: int, sleep: nat, ghost j: Rejection)
    requires s.Valid() && Fresh(s.log, Others(From(pauses, n)) + [SendAcquire(a)])
    requires calm ==> OnCourse(s.View(), a, allowed, n, begun, timeout, poll, trips, pauses) && Allowed(s, a) == allowed
    modifies s
    ensures s.Valid() && (calm ==> n <= 2)
    ensures done ==> Occurrences(s.log, a.request) == if r.Ok? then 1 else 0
    ensures done && r.Ok? ==> AllowanceRight(s, a, r.value)
    ensures done && r.Ok? ==> s.log != [] && s.log[|s.log| - 1] == Admission(s.now, a.tokens, a.request)
    ensures done && r.Err? ==> elapsed >= timeout && RejectionRight(s, a, r.error) && !calm
    ensures !done ==> Fresh(s.log, Others(From(pauses, n + 1)) + [SendAcquire(a)])
    ensures !done ==> begun < timeout && begun < elapsed && (elapsed < timeout ==> elapsed >= begun + Longer(1, poll))
    ensures elapsed == begun + trips(n) + if done then 0 else sleep + OverrunOf(pauses, n)
    ensures !done ==> SleepRight(a, j, sleep, timeout - (begun + trips(n)), poll)
    ensures j.view == old(s.View()) && j.allowed == old(Allowed(s, a))
    ensures !done && calm ==>
        OnCourse(s.View(), a, allowed, n + 1, elapsed, timeout, poll, trips, pauses) && Allowed(s, a) == allowed
  {
    hide Live, Backs, NotAfter, Tokens, Occurrences, Fresh, Judge, HintRight, AllowanceRight, PeaksRight,
      OnCourse, Others, Compute;
    done, sleep := true, 0;
    j := Rejection(s.View(), Allowed(s, a), RateLimited(Granted, 0));
    if calm {
      AtMostTwo(s.View(), a, allowed, n, begun, timeout, poll, trips, pauses);
    }
    r := TryOnce(s, a, Others(From(pauses, n)));
    elapsed := begun + trips(n);
    if r.Ok? {
      return;
    }
    if calm {
      CourseBound(s, a, allowed, n, begun, timeout, poll, trips, pauses, r);
    }
    var remaining := timeout - elapsed;
    if remaining <= 0 {
      return;
    }
    HintIsPositive(s, a, r.error);
    j := j.(error := r.error);
    var wait := if r.error.retryAfter >= poll then r.error.retryAfter else poll;
    sleep := if wait <= remaining then wait else remaining;
    ghost var v := s.View();
    var overrun := Rest(s, pauses, n, sleep, [SendAcquire(a)]);
    done, elapsed := false, elapsed + sleep + overrun;
    if calm {
      CourseContinues(s, v, a, allowed, n, begun, timeout, poll, trips, pauses, r.error, sleep);
    }
  }

  /** RedisLimiter.acquire. It always ends within the bound, whatever each script call takes and
      whatever other workers do meanwhile; success leaves exactly one log entry of this request,
      an error none. An error comes only after the timeout and is right at that moment. And the
      hints lead there: undisturbed, and with patience for two waits, an admissible request is
      admitted within three attempts. */
  method Acquire(s: Store, a: AcquireArgs, timeout: int, poll: int, trips: nat -> nat, pauses: seq<Pause>)
    returns (r: Result<Allowance, RateLimited>, attempts: nat, elapsed: int, ghost sleeps: seq<nat>,
             ghost rejections: seq<Rejection>)
    requires s.Valid() && Fresh(s.log, Others(pauses) + [SendAcquire(a)])
    modifies s
    ensures s.Valid()
    ensures 1 <= attempts <= AttemptBound(timeout, poll)
    ensures |sleeps| == attempts - 1 && elapsed == Spent(trips, pauses, sleeps) + trips(attempts - 1)
    ensures SleepsRight(a, trips, pauses, rejections, sleeps, timeout, poll)
    ensures Occurrences(s.log, a.request) == if r.Ok? then 1 else 0
    ensures r.Ok? ==> s.log != [] && s.log[|s.log| - 1] == Admission(s.now, a.tokens, a.request)
    ensures r.Ok? ==> AllowanceRight(s, a, r.value)
    ensures r.Err? ==> elapsed >= timeout && RejectionRight(s, a, r.error)
    ensures old(Calm(s, a, timeout, poll, trips, pauses)) ==> r.Ok? && attempts <= 3
  {
    hide Live, Backs, NotAfter, Tokens, Occurrences, Fresh, AttemptBound, Slept, Judge, HintRight,
      AllowanceRight, RejectionRight, PeaksRight, OnCourse, Calm, Others, Compute, SleepRight, Spent, SleepsRight;
    attempts, elapsed, sleeps, rejections := 0, 0, [], [];
    SleptMore(0, Longer(1, poll));
    SpentMore(trips, pauses, [], 0);
    NoSleeps(a, trips, pauses, timeout, poll);
    ghost var calm := Calm(s, a, timeout, poll, trips, pauses);
    ghost var allowed := Allowed(s, a);
    if calm {
      CourseStarts(s, a, timeout, poll, trips, pauses);
    }
    assert pauses[0..] == pauses;
    while true
      invariant s.Valid() && Fresh(s.log, Others(From(pauses, attempts)) + [SendAcquire(a)])
      invariant attempts == 0 || (timeout > 0 && Slept(attempts - 1, Longer(1, poll)) < timeout)
      invariant |sleeps| == attempts && elapsed == Spent(trips, pauses, sleeps)
      invariant SleepsRight(a, trips, pauses, rejections, sleeps, timeout, poll)
      invariant elapsed >= 0 && (elapsed < timeout ==> Slept(attempts, Longer(1, poll)) <= elapsed)
      invariant calm ==>
                  OnCourse(s.View(), a, allowed, attempts, elapsed, timeout, poll, trips, pauses)
                  && Allowed(s, a) == allowed
      decreases timeout - elapsed
    {
      AttemptsFit(attempts, timeout, poll);
      SleptMore(attempts, Longer(1, poll));
      var done, sleep;
      ghost var j;
      done, r, elapsed, sleep, j := Turn(s, a, timeout, poll, trips, pauses, attempts, elapsed, calm, allowed);
      attempts := attempts + 1;
      if done {
        return;
      }
      SpentMore(trips, pauses, sleeps, sleep);
      SleepsMore(a, trips, pauses, rejections, sleeps, j, sleep, timeout, poll);
      sleeps, rejections := sleeps + [sleep], rejections + [j];
    }
  }

  function From(pauses: seq<Pause>, n: nat): seq<Pause> {
    if n <= |pauses| then pauses[n..] else []
  }

  /** One sleep: time passes, and other workers send what they send. */
  method Rest(s: Store, pauses: seq<Pause>, n: nat, sleep: nat, ghost mine: seq<Command>) returns (overrun: nat)
    requires s.Valid() && Fresh(s.log, Others(From(pauses, n)) + mine)
    modifies s
    ensures s.Valid() && Fresh(s.log, Others(From(pauses, n + 1)) + mine) && overrun == OverrunOf(pauses, n)
    ensures Undisturbed(pauses) ==>
              s.View() == old(s.View()).(now := s.now) && s.now >= old(s.now) + sleep && s.Fields() == old(s.Fields())
  {
    hide Live, Backs, NotAfter, PeaksRight, Fresh;
    var pause := if n < |pauses| then pauses[n] else Pause(0, ms => ms, []);
    s.Tick(pause.advance(sleep));
    overrun := pause.overrun;
    if n < |pauses| {
      assert pauses[n..][1..] == pauses[n + 1..];
      assert Others(pauses[n..]) + mine == pause.others + (Others(pauses[n + 1..]) + mine);
      SendOthers(s, pause.others, Others(pauses[n + 1..]) + mine);
    }
  }

  lemma CourseStarts(s: Store, a: AcquireArgs, timeout: int, poll: int, trips: nat -> nat, pauses: seq<Pause>)
    requires Calm(s, a, timeout, poll, trips, pauses)
    ensures OnCourse(s.View(), a, Allowed(s, a), 0, 0, timeout, poll, trips, pauses)
  {
  }

  lemma AtMostTwo(v: View, a: AcquireArgs, allowed: int, n: nat, elapsed: int, timeout: int, poll: int,
                  trips: nat -> nat, pauses: seq<Pause>)
    requires OnCourse(v, a, allowed, n, elapsed, timeout, poll, trips, pauses)
    ensures n <= 2 && Undisturbed(pauses)
  {
  }

  /** At most three attempts; and a rejected one still has time for its whole wait. */
  lemma CourseBound(s: Store, a: AcquireArgs, allowed: int, n: nat, begun: int, timeout: int, poll: int,
                    trips: nat -> nat, pauses: seq<Pause>, r: Result<Allowance, RateLimited>)
    requires r.Err? ==> s.Valid() && RejectionRight(s, a, r.error) && Allowed(s, a) == allowed
    requires r.Err? ==> OnCourse(s.View(), a, allowed, n, begun, timeout, poll, trips, pauses)
    requires n <= 2
    ensures r.Err? ==> timeout - (begun + trips(n)) > 0
  {
    hide Judge, HintRight, Compute, Backs, PeaksRight, OnCourse;
    if r.Err? {
      var v, e := s.View(), r.error;
      var wait := Longer(e.retryAfter, poll);
      var remaining := timeout - (begun + trips(n));
      var sleep := if wait <= remaining then wait else remaining;
      CourseGoesOn(v, v.(now := v.now + if sleep >= 0 then sleep else 0), a, allowed, n, begun, timeout, poll, trips,
          pauses, e, sleep);
    }
  }

  lemma CourseContinues(s: Store, v: View, a: AcquireArgs, allowed: int, n: nat, begun: int, timeout: int, poll: int,
                        trips: nat -> nat, pauses: seq<Pause>, e: RateLimited, sleep: nat)
    requires NotAfter(v.log, v.now) && v.window > 0
    requires s.View() == v.(now := s.now) && s.now >= v.now + sleep
    requires Judge(v, a, allowed) == e.reason != Granted && HintRight(v, a, e.reason, e.retryAfter)
    requires OnCourse(v, a, allowed, n, begun, timeout, poll, trips, pauses)
    requires
      var wait := Longer(e.retryAfter, poll);
      var remaining := timeout - (begun + trips(n));
      sleep == if wait <= remaining then wait else remaining
    ensures OnCourse(s.View(), a, allowed, n + 1, begun + trips(n) + sleep + OverrunOf(pauses, n), timeout, poll,
        trips, pauses)
  {
    hide Judge, HintRight, OnCourse, NotAfter;
    CourseGoesOn(v, s.View(), a, allowed, n, begun, timeout, poll, trips, pauses, e, sleep);
  }

  lemma HintIsPositive(s: Store, a: AcquireArgs, e: RateLimited)
    requires RejectionRight(s, a, e) && s.settings.window > 0
    ensures e.retryAfter >= 1
  {
    hide Judge, Live;
  }

  lemma LastIsAbsent(log: seq<Admission>, cs: seq<Command>, a: AcquireArgs)
    requires Fresh(log, cs + [SendAcquire(a)])
    ensures Absent(log, a.request)
  {
    assert (cs + [SendAcquire(a)])[|cs|] == SendAcquire(a);
  }

  lemma {:induction false} AbsentOccurrences(log: seq<Admission>, request: string)
    requires Absent(log, request)
    ensures Occurrences(log, request) == 0
  {
    if log != [] {
      AbsentOccurrences(log[..|log| - 1], request);
    }
  }
}
