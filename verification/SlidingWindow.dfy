/**
 The rate limiter as its documentation describes it: a log of admissions and a window.
 Nothing here knows about Redis; RedisStore is proved to compute exactly this.
 */
module SlidingWindow {

  datatype Admission = Admission(time: int, tokens: nat, request: string)

  datatype AcquireArgs = AcquireArgs(
    rpmLimit: int, tpmLimit: int, ceiling: int,
    tokens: nat, request: string,
    autoConcurrency: bool, reserve: bool)

  datatype Verdict = Granted | ByRpm | ByTpm | ByConcurrency

  /** What the limiter promises to keep track of: the admissions, the concurrency counter inUse,
      and the instant from which an untouched counter may be dropped. */
  datatype View = View(window: int, slotTtl: nat, now: int, log: seq<Admission>, inUse: nat, slotsUntil: int)

  /** Admissions strictly later than the cutoff, in log order. */
  function Live(log: seq<Admission>, cutoff: int): (live: seq<Admission>)
    ensures |live| <= |log|
  {
    if log == [] then []
    else
      var rest := Live(log[..|log| - 1], cutoff);
      if log[|log| - 1].time > cutoff then rest + [log[|log| - 1]] else rest
  }

  function Tokens(log: seq<Admission>): nat {
    if log == [] then 0 else Tokens(log[..|log| - 1]) + log[|log| - 1].tokens
  }

  /** Admissions in the half-open interval (from, to]. */
  function Within(log: seq<Admission>, from: int, to: int): seq<Admission> {
    if log == [] then []
    else
      var rest := Within(log[..|log| - 1], from, to);
      if from < log[|log| - 1].time <= to then rest + [log[|log| - 1]] else rest
  }

  /** The window of the given length that ends at t. */
  function WindowAt(log: seq<Admission>, window: int, t: int): seq<Admission> {
    Within(log, t - window, t)
  }

  ghost predicate NotAfter(log: seq<Admission>, now: int) {
    forall i :: 0 <= i < |log| ==> log[i].time <= now
  }

  predicate PassesRpm(log: seq<Admission>, window: int, at: int, limit: int) {
    |Live(log, at - window)| + 1 <= limit
  }

  predicate PassesTpm(log: seq<Admission>, window: int, at: int, tokens: nat, limit: int) {
    Tokens(Live(log, at - window)) + tokens <= limit
  }

  function Judge(v: View, a: AcquireArgs, effective: int): Verdict {
    if a.rpmLimit > 0 && !PassesRpm(v.log, v.window, v.now, a.rpmLimit) then ByRpm
    else if a.tpmLimit > 0 && !PassesTpm(v.log, v.window, v.now, a.tokens, a.tpmLimit) then ByTpm
    else if a.reserve && effective > 0 && v.inUse + 1 > effective then ByConcurrency
    else Granted
  }

  /** One acquire attempt: only a granted one leaves a trace. */
  function Acquired(v: View, a: AcquireArgs, effective: int): View {
    if Judge(v, a, effective) != Granted then v
    else v.(log := v.log + [Admission(v.now, a.tokens, a.request)],
            inUse := if a.reserve then v.inUse + 1 else v.inUse,
            slotsUntil := if a.reserve then v.now + v.slotTtl else v.slotsUntil)
  }

  /** One release: the counter never goes below zero. */
  function Released(v: View): View {
    v.(inUse := if v.inUse == 0 then 0 else v.inUse - 1, slotsUntil := v.now + v.slotTtl)
  }

  /** How often a request appears in the log. */
  function Occurrences(log: seq<Admission>, request: string): nat {
    if log == [] then 0
    else Occurrences(log[..|log| - 1], request) + (if log[|log| - 1].request == request then 1 else 0)
  }

  // ---- the filters ----

  lemma LiveAppend(log: seq<Admission>, a: Admission, cutoff: int)
    ensures Live(log + [a], cutoff) == if a.time > cutoff then Live(log, cutoff) + [a] else Live(log, cutoff)
  {
    assert (log + [a])[..|log|] == log;
  }

  lemma TokensAppend(log: seq<Admission>, a: Admission)
    ensures Tokens(log + [a]) == Tokens(log) + a.tokens
  {
    assert (log + [a])[..|log|] == log;
  }

  /** Pruning twice is pruning once with the later cutoff: entries dropped lazily stay dropped. */
  lemma {:induction false} LiveLive(log: seq<Admission>, early: int, late: int)
    requires early <= late
    ensures Live(Live(log, early), late) == Live(log, late)
  {
    if log != [] {
      var init, last := log[..|log| - 1], log[|log| - 1];
      LiveLive(init, early, late);
      LiveAppend(Live(init, early), last, late);
    }
  }

  /** A later cutoff keeps no more admissions and no more tokens. */
  lemma {:induction false} LiveShrinks(log: seq<Admission>, early: int, late: int)
    requires early <= late
    ensures |Live(log, late)| <= |Live(log, early)|
    ensures Tokens(Live(log, late)) <= Tokens(Live(log, early))
  {
    if log != [] {
      var init, last := log[..|log| - 1], log[|log| - 1];
      LiveShrinks(init, early, late);
      TokensAppend(Live(init, early), last);
      TokensAppend(Live(init, late), last);
    }
  }

  /** An admission counts for exactly one window length from its own instant on. */
  lemma {:induction false} CountsForOneWindow(log: seq<Admission>, window: int, at: int, e: Admission)
    ensures e in Live(log, at - window) <==> e in log && at < e.time + window
    ensures e in WindowAt(log, window, at) <==> e in log && e.time <= at < e.time + window
  {
    if log != [] {
      var init, last := log[..|log| - 1], log[|log| - 1];
      assert log == init + [last];
      CountsForOneWindow(init, window, at, e);
    }
  }

  lemma {:induction false} NothingLive(log: seq<Admission>, cutoff: int)
    requires NotAfter(log, cutoff)
    ensures Live(log, cutoff) == []
  {
    if log != [] {
      NothingLive(log[..|log| - 1], cutoff);
    }
  }

  lemma {:induction false} WithinIsLive(log: seq<Admission>, from: int, to: int)
    requires NotAfter(log, to)
    ensures Within(log, from, to) == Live(log, from)
  {
    if log != [] {
      WithinIsLive(log[..|log| - 1], from, to);
    }
  }

  lemma WithinAppend(log: seq<Admission>, a: Admission, from: int, to: int)
    ensures Within(log + [a], from, to) == if from < a.time <= to then Within(log, from, to) + [a]
        else Within(log, from, to)
  {
    assert (log + [a])[..|log|] == log;
  }

  // ---- sliding-window safety ----

  /** No window of the given length, wherever it ends, holds more than the limit. */
  ghost predicate RpmSafe(log: seq<Admission>, window: int, limit: int) {
    forall t :: |WindowAt(log, window, t)| <= limit
  }

  ghost predicate TpmSafe(log: seq<Admission>, window: int, limit: int) {
    forall t :: Tokens(WindowAt(log, window, t)) <= limit
  }

  /** An admission only changes the windows that end at or after it, and there only adds itself. */
  lemma WindowAfterAppend(log: seq<Admission>, a: Admission, window: int, t: int)
    requires NotAfter(log, a.time)
    ensures t < a.time ==> WindowAt(log + [a], window, t) == WindowAt(log, window, t)
    ensures t >= a.time ==> |WindowAt(log + [a], window, t)| <= |Live(log, a.time - window)| + 1
    ensures t >= a.time ==> Tokens(WindowAt(log + [a], window, t)) <= Tokens(Live(log, a.time - window)) + a.tokens
  {
    hide Tokens, Within, Live;
    WithinAppend(log, a, t - window, t);
    if t >= a.time {
      assert NotAfter(log, t);
      WithinIsLive(log, t - window, t);
      LiveShrinks(log, a.time - window, t - window);
      var kept := Within(log, t - window, t);
      TokensAppend(kept, a);
      assert WindowAt(log + [a], window, t) == kept || WindowAt(log + [a], window, t) == kept + [a];
    }
  }

  lemma GrantKeepsRpmSafe(v: View, a: AcquireArgs, effective: int)
    requires NotAfter(v.log, v.now) && a.rpmLimit > 0
    requires RpmSafe(v.log, v.window, a.rpmLimit)
    ensures RpmSafe(Acquired(v, a, effective).log, v.window, a.rpmLimit)
  {
    if Judge(v, a, effective) == Granted {
      var e := Admission(v.now, a.tokens, a.request);
      forall t ensures |WindowAt(v.log + [e], v.window, t)| <= a.rpmLimit {
        WindowAfterAppend(v.log, e, v.window, t);
      }
    }
  }

  lemma GrantKeepsTpmSafe(v: View, a: AcquireArgs, effective: int)
    requires NotAfter(v.log, v.now) && a.tpmLimit > 0
    requires TpmSafe(v.log, v.window, a.tpmLimit)
    ensures TpmSafe(Acquired(v, a, effective).log, v.window, a.tpmLimit)
  {
    if Judge(v, a, effective) == Granted {
      var e := Admission(v.now, a.tokens, a.request);
      forall t ensures Tokens(WindowAt(v.log + [e], v.window, t)) <= a.tpmLimit {
        WindowAfterAppend(v.log, e, v.window, t);
      }
    }
  }
}
