/**
 When a rejected request may come back, read off the sliding-window log.
 */
module RetryHints {
  import opened SlidingWindow

  /** `at` is the first instant from `from` on at which the request fits the token limit. */
  ghost predicate EarliestTpm(log: seq<Admission>, window: int, from: int, at: int, tokens: nat, limit: int) {
    && from <= at
    && PassesTpm(log, window, at, tokens, limit)
    && (forall t :: from <= t < at ==> !PassesTpm(log, window, t, tokens, limit))
  }

  ghost predicate EarliestRpm(log: seq<Admission>, window: int, from: int, at: int, limit: int) {
    && from <= at
    && PassesRpm(log, window, at, limit)
    && (forall t :: from <= t < at ==> !PassesRpm(log, window, t, limit))
  }

  /** Nothing live is older than `time`, and something live is that old. */
  ghost predicate OldestLive(log: seq<Admission>, cutoff: int, time: int) {
    && cutoff < time
    && Live(log, time) != Live(log, cutoff)
    && Live(log, time - 1) == Live(log, cutoff)
  }

  /** What each kind of rejection promises with its retry_after. */
  ghost predicate HintRight(v: View, a: AcquireArgs, reason: Verdict, ms: int) {
    match reason
    case Granted => ms == 0
    case ByConcurrency => ms == 250
    case ByRpm => ms >= 1 && OldestLive(v.log, v.now - v.window, v.now + ms - v.window)
    case ByTpm =>
      if a.tokens <= a.tpmLimit then ms >= 1 && EarliestTpm(v.log, v.window, v.now, v.now + ms, a.tokens, a.tpmLimit)
      else ms == v.window && forall t :: !PassesTpm(v.log, v.window, t, a.tokens, a.tpmLimit)
  }

  lemma {:induction false} SameCountSameLive(log: seq<Admission>, early: int, late: int)
    requires early <= late
    ensures |Live(log, late)| <= |Live(log, early)|
    ensures |Live(log, late)| == |Live(log, early)| <==> Live(log, late) == Live(log, early)
  {
    LiveShrinks(log, early, late);
    if log != [] {
      SameCountSameLive(log[..|log| - 1], early, late);
    }
  }

  /** How many admissions share one instant. */
  function CountAt(log: seq<Admission>, time: int): nat {
    if log == [] then 0 else CountAt(log[..|log| - 1], time) + (if log[|log| - 1].time == time then 1 else 0)
  }

  lemma {:induction false} LiveWithoutInstant(log: seq<Admission>, time: int)
    ensures |Live(log, time - 1)| == |Live(log, time)| + CountAt(log, time)
  {
    if log != [] {
      LiveWithoutInstant(log[..|log| - 1], time);
    }
  }

  /** The RPM hint, the expiry of the oldest live admission, is never late; and it is exact if and
      only if the live admissions that do not expire together with the oldest are below the limit. */
  lemma RpmHintExactIff(log: seq<Admission>, window: int, now: int, limit: int, oldest: int)
    requires OldestLive(log, now - window, oldest) && !PassesRpm(log, window, now, limit)
    ensures EarliestRpm(log, window, now, oldest + window, limit)
       <==> |Live(log, now - window)| - CountAt(log, oldest) < limit
    ensures forall t :: now <= t < oldest + window ==> !PassesRpm(log, window, t, limit)
  {
    hide Live, CountAt;
    LiveWithoutInstant(log, oldest);
    forall t | now <= t < oldest + window ensures !PassesRpm(log, window, t, limit) {
      LiveShrinks(log, t - window, oldest - 1);
    }
  }

  /** In particular it is exact whenever the live count equals the limit. */
  lemma RpmHintExactAtLimit(log: seq<Admission>, window: int, now: int, limit: int, oldest: int)
    requires OldestLive(log, now - window, oldest) && |Live(log, now - window)| == limit
    ensures EarliestRpm(log, window, now, oldest + window, limit)
  {
    SameCountSameLive(log, now - window, oldest);
    LiveWithoutInstant(log, oldest);
    RpmHintExactIff(log, window, now, limit, oldest);
  }

  // ---- waiting for the hint ----

  predicate RoomRpm(v: View, a: AcquireArgs) {
    a.rpmLimit > 0 ==> PassesRpm(v.log, v.window, v.now, a.rpmLimit)
  }

  predicate RoomTpm(v: View, a: AcquireArgs) {
    a.tpmLimit > 0 ==> PassesTpm(v.log, v.window, v.now, a.tokens, a.tpmLimit)
  }

  /** A limit has room exactly when the window that ends now, with the request in it, keeps to it. */
  lemma RoomIsWhatFits(v: View, a: AcquireArgs)
    requires NotAfter(v.log, v.now) && v.window > 0
    ensures
      var added := WindowAt(v.log + [Admission(v.now, a.tokens, a.request)], v.window, v.now);
      && (RoomRpm(v, a) <==> a.rpmLimit <= 0 || |added| <= a.rpmLimit)
      && (RoomTpm(v, a) <==> a.tpmLimit <= 0 || Tokens(added) <= a.tpmLimit)
  {
    hide Live, Within, Tokens;
    var e := Admission(v.now, a.tokens, a.request);
    WithinIsLive(v.log, v.now - v.window, v.now);
    WithinAppend(v.log, e, v.now - v.window, v.now);
    TokensAppend(Live(v.log, v.now - v.window), e);
  }

  /** The limits are checked in this order: requests, tokens, slots; the first without room rejects. */
  lemma VerdictsExactly(v: View, a: AcquireArgs, effective: int)
    ensures Judge(v, a, effective) == ByRpm <==> !RoomRpm(v, a)
    ensures Judge(v, a, effective) == ByTpm <==> RoomRpm(v, a) && !RoomTpm(v, a)
    ensures Judge(v, a, effective) == ByConcurrency
       <==> RoomRpm(v, a) && RoomTpm(v, a) && a.reserve && v.inUse >= effective > 0
    ensures Judge(v, a, effective) == Granted
       <==> RoomRpm(v, a) && RoomTpm(v, a) && (a.reserve ==> effective <= 0 || v.inUse < effective)
  {
    hide Live, Tokens;
  }

  /** What a request knows after n rejections whose hints it waited for, with no other traffic: the
      first one settles the request limit, the second the token limit. */
  predicate OnTrack(n: nat, v: View, a: AcquireArgs) {
    && (a.rpmLimit > 0 ==> |Live(v.log, v.now - v.window)| <= a.rpmLimit)
    && (n >= 1 ==> RoomRpm(v, a))
    && (n >= 2 ==> RoomTpm(v, a))
  }

  lemma RoomStays(v: View, later: View, a: AcquireArgs)
    requires later.log == v.log && later.window == v.window && v.now <= later.now
    ensures RoomRpm(v, a) ==> RoomRpm(later, a)
    ensures RoomTpm(v, a) ==> RoomTpm(later, a)
    ensures |Live(later.log, later.now - later.window)| <= |Live(v.log, v.now - v.window)|
  {
    hide Live, Tokens;
    LiveShrinks(v.log, v.now - v.window, later.now - v.window);
  }

  /** No hint of a request that fits is longer than the window. */
  lemma HintWithinWindow(v: View, a: AcquireArgs, reason: Verdict, ms: int)
    requires HintRight(v, a, reason, ms) && NotAfter(v.log, v.now) && v.window > 0
    requires reason == ByRpm || (reason == ByTpm && a.tokens <= a.tpmLimit)
    ensures ms <= v.window
  {
    hide Live, Tokens;
    NothingLive(v.log, v.now);
    NoTokens();
    assert a.tokens <= a.tpmLimit ==> PassesTpm(v.log, v.window, v.now + v.window, a.tokens, a.tpmLimit);
    if ms > v.window {
      NothingLive(v.log, v.now + ms - v.window - 1);
      NothingLive(v.log, v.now + ms - v.window);
    }
  }

  lemma NoTokens()
    ensures Tokens([]) == 0
  {
  }

  /** Waiting as long as the hint says settles one more limit. */
  lemma WaitingHelps(n: nat, v: View, later: View, a: AcquireArgs, effective: int, ms: int)
    requires OnTrack(n, v, a) && n <= 1
    requires Judge(v, a, effective) == ByRpm || Judge(v, a, effective) == ByTpm
    requires HintRight(v, a, Judge(v, a, effective), ms)
    requires Judge(v, a, effective) == ByTpm ==> a.tokens <= a.tpmLimit
    requires later.log == v.log && later.window == v.window && v.now + ms <= later.now
    ensures OnTrack(n + 1, later, a)
  {
    hide Live, Tokens;
    var atHint := v.(now := v.now + ms);
    RoomStays(v, later, a);
    RoomStays(atHint, later, a);
    if Judge(v, a, effective) == ByRpm {
      RpmHintExactAtLimit(v.log, v.window, v.now, a.rpmLimit, v.now + ms - v.window);
    }
  }

  /** With room under both limits only the slots can be in the way. */
  lemma RoomIsEnough(v: View, a: AcquireArgs, effective: int)
    requires OnTrack(2, v, a)
    ensures Judge(v, a, effective) == Granted || Judge(v, a, effective) == ByConcurrency
  {
    hide Live, Tokens;
  }
}
