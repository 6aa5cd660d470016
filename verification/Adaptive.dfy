/**
 The adaptive hash of a model: smoothed latency and tokens, and the backoff factor that
 upstream throttling shrinks and successes restore.
 */
module Adaptive {
  import opened Wrappers
  import opened RealFacts

  datatype Tuning = Tuning(alpha: real, recoverStep: real, mult: real, floor: real, defaultLatency: real)

  /** The stored fields; a field never written is None. bf is written by every report. */
  datatype Hash = Hash(lat: Option<real>, tok: Option<real>, bf: real)

  /** A negative latency or token count is the caller's "not measured". */
  datatype Outcome = Success(latencyMs: int, tokens: int) | UpstreamThrottle

  ghost predicate Sensible(t: Tuning) {
    && 0.0 <= t.alpha <= 1.0
    && 0.0 <= t.recoverStep
    && 0.0 <= t.mult <= 1.0
    && 0.0 <= t.floor <= 1.0
  }

  function Smooth(alpha: real, sample: real, previous: real): real {
    Times(alpha, sample) + Times(1.0 - alpha, previous)
  }

  function Load(h: Option<Hash>): Hash {
    h.GetOr(Hash(None, None, 1.0))
  }

  function NextLatency(lat: Option<real>, latencyMs: int, t: Tuning): real {
    if latencyMs >= 0 then
      (match lat case None => latencyMs as real case Some(l) => Smooth(t.alpha, latencyMs as real, l))
    else lat.GetOr(t.defaultLatency)
  }

  function NextTokens(tok: Option<real>, tokens: int, t: Tuning): real {
    var v := tok.GetOr(0.0);
    if tokens < 0 then v else if v <= 0.0 then tokens as real else Smooth(t.alpha, tokens as real, v)
  }

  /** One report script. */
  function Reported(stored: Option<Hash>, o: Outcome, t: Tuning): Hash {
    var h := Load(stored);
    match o
    case Success(latencyMs, tokens) =>
      Hash(Some(NextLatency(h.lat, latencyMs, t)), Some(NextTokens(h.tok, tokens, t)), Min(1.0, h.bf + t.recoverStep))
    case UpstreamThrottle => h.(bf := Max(t.floor, Times(h.bf, t.mult)))
  }

  /** Any sequence of reports. */
  function ReportAll(stored: Option<Hash>, os: seq<Outcome>, t: Tuning): Option<Hash> {
    if os == [] then stored else Some(Reported(ReportAll(stored, os[..|os| - 1], t), os[|os| - 1], t))
  }

  function Power(b: real, k: nat): real {
    if k == 0 then 1.0 else Times(Power(b, k - 1), b)
  }

  lemma SmoothBetween(alpha: real, x: real, y: real, lo: real, hi: real)
    requires 0.0 <= alpha <= 1.0 && lo <= x <= hi && lo <= y <= hi
    ensures lo <= Smooth(alpha, x, y) <= hi
  {
    hide Times;
    Blend(x, y, alpha, 1.0 - alpha, lo);
    BlendAbove(x, y, alpha, 1.0 - alpha, hi);
  }

  /** What one success does to the averages: a measured sample moves an average by alpha of the
      distance, or starts it if there is none yet (for tokens: none above zero); without a
      measurement nothing moves, and only a missing latency is set to the default. */
  lemma SampleMovesAverages(stored: Option<Hash>, latencyMs: int, tokens: int, t: Tuning)
    ensures
      var h, r := Load(stored), Reported(stored, Success(latencyMs, tokens), t);
      var latency, count := latencyMs as real, tokens as real;
      && r.lat.Some? && r.tok.Some?
      && (latencyMs >= 0 && h.lat.Some? ==> r.lat.value - h.lat.value == Times(t.alpha, latency - h.lat.value))
      && (latencyMs >= 0 && h.lat.None? ==> r.lat.value == latency)
      && (latencyMs < 0 && h.lat.Some? ==> r.lat == h.lat)
      && (latencyMs < 0 && h.lat.None? ==> r.lat.value == t.defaultLatency)
      && (tokens >= 0 && h.tok.Some? && h.tok.value > 0.0 ==>
            r.tok.value - h.tok.value == Times(t.alpha, count - h.tok.value))
      && (tokens >= 0 && (h.tok.None? || h.tok.value <= 0.0) ==> r.tok.value == count)
      && (tokens < 0 && h.tok.Some? ==> r.tok == h.tok)
      && (tokens < 0 && h.tok.None? ==> r.tok.value == 0.0)
  {
    hide Times;
    var h := Load(stored);
    if h.lat.Some? {
      SmoothMoves(t.alpha, latencyMs as real, h.lat.value);
    }
    if h.tok.Some? {
      SmoothMoves(t.alpha, tokens as real, h.tok.value);
    }
  }

  lemma SmoothMoves(alpha: real, sample: real, v: real)
    ensures Smooth(alpha, sample, v) - v == Times(alpha, sample - v)
    ensures Smooth(alpha, sample, v) - sample == Times(1.0 - alpha, v - sample)
  {
  }

  /** n equal samples bring the averages exponentially close: from v, n samples s leave
      s + (1 - alpha)^n (v - s). */
  lemma {:induction false} EqualSamplesConverge(stored: Option<Hash>, os: seq<Outcome>, latencyMs: nat, tokens: nat,
      t: Tuning)
    requires Sensible(t) && Load(stored).lat.Some? && Load(stored).tok.Some? && Load(stored).tok.value > 0.0
    requires forall i :: 0 <= i < |os| ==> os[i] == Success(latencyMs, tokens)
    ensures
      var h, r := Load(stored), Load(ReportAll(stored, os, t));
      var latency, count := latencyMs as real, tokens as real;
      && r.lat == Some(latency + Times(Power(1.0 - t.alpha, |os|), h.lat.value - latency))
      && r.tok == Some(count + Times(Power(1.0 - t.alpha, |os|), h.tok.value - count))
      && r.tok.value >= 0.0 && (tokens > 0 ==> r.tok.value > 0.0)
  {
    hide Times, Smooth;
    var h := Load(stored);
    var latency, count := latencyMs as real, tokens as real;
    if os == [] {
      TimesOne(h.lat.value - latency);
      TimesOne(h.tok.value - count);
    } else {
      var init := os[..|os| - 1];
      EqualSamplesConverge(stored, init, latencyMs, tokens, t);
      var g := Load(ReportAll(stored, init, t));
      SampleMovesAverages(ReportAll(stored, init, t), latencyMs, tokens, t);
      ConvergeOnce(latency, h.lat.value, t.alpha, |init|);
      ConvergeOnce(count, h.tok.value, t.alpha, |init|);
      SmoothMoves(t.alpha, latency, g.lat.value);
      SmoothMoves(t.alpha, count, g.tok.value);
      SmoothBetween(t.alpha, count, g.tok.value, 0.0, Max(count, g.tok.value));
      if tokens > 0 {
        var lo := Min(count, g.tok.value);
        SmoothBetween(t.alpha, count, g.tok.value, lo, Max(count, g.tok.value));
      }
    }
  }

  lemma ConvergeOnce(s: real, v: real, alpha: real, n: nat)
    ensures Smooth(alpha, s, s + Times(Power(1.0 - alpha, n), v - s)) == s + Times(Power(1.0 - alpha, n + 1), v - s)
  {
    hide Times, Smooth;
    var p := Power(1.0 - alpha, n);
    SmoothMoves(alpha, s, s + Times(p, v - s));
    Reorder(1.0 - alpha, p, v - s);
  }

  lemma Reorder(a: real, p: real, d: real)
    ensures Times(a, Times(p, d)) == Times(Times(p, a), d)
  {
  }

  /** However reports interleave, the backoff factor stays between the floor and one. */
  lemma {:induction false} BackoffStaysBounded(stored: Option<Hash>, os: seq<Outcome>, t: Tuning)
    requires Sensible(t) && t.floor <= Load(stored).bf <= 1.0
    ensures t.floor <= Load(ReportAll(stored, os, t)).bf <= 1.0
  {
    hide Times;
    if os != [] {
      var before := ReportAll(stored, os[..|os| - 1], t);
      BackoffStaysBounded(stored, os[..|os| - 1], t);
      TimesBelow(Load(before).bf, t.mult);
    }
  }

  function Throttles(k: nat): (os: seq<Outcome>)
    ensures |os| == k
  {
    if k == 0 then [] else Throttles(k - 1) + [UpstreamThrottle]
  }

  /** k throttles in a row multiply the factor by mult^k, down to the floor, and touch nothing else. */
  lemma {:induction false} ThrottleStreak(stored: Option<Hash>, k: nat, t: Tuning)
    requires Sensible(t) && t.floor <= Load(stored).bf
    ensures Load(ReportAll(stored, Throttles(k), t))
         == Load(stored).(bf := Max(t.floor, Times(Load(stored).bf, Power(t.mult, k))))
  {
    hide Times;
    var b := Load(stored).bf;
    if k == 0 {
      TimesOne(b);
    } else {
      assert Throttles(k)[..k - 1] == Throttles(k - 1);
      ThrottleStreak(stored, k - 1, t);
      FloorThenScale(t.floor, b, Power(t.mult, k - 1), t.mult);
    }
  }

  lemma FloorThenScale(floor: real, b: real, p: real, m: real)
    requires 0.0 <= floor && 0.0 <= m <= 1.0
    ensures Max(floor, Times(Max(floor, Times(b, p)), m)) == Max(floor, Times(b, Times(p, m)))
  {
    hide Times;
    TimesAssociates(b, p, m);
    TimesBelow(floor, m);
    if Times(b, p) <= floor {
      TimesLeftMonotone(Times(b, p), floor, m);
    }
  }

  /** Successes in a row restore the factor by one step each, up to one. */
  lemma {:induction false} SuccessStreak(stored: Option<Hash>, os: seq<Outcome>, t: Tuning)
    requires Sensible(t) && Load(stored).bf <= 1.0
    requires forall i :: 0 <= i < |os| ==> os[i].Success?
    ensures Load(ReportAll(stored, os, t)).bf == Min(1.0, Load(stored).bf + Times(|os| as real, t.recoverStep))
  {
    hide Times;
    if os == [] {
      TimesOne(t.recoverStep);
    } else {
      SuccessStreak(stored, os[..|os| - 1], t);
      TimesSuccessor(|os| - 1, t.recoverStep);
    }
  }

  /** Every latency that has gone into the average: the stored seed, each measurement, and the
      default when a success without a measurement had to start the average. */
  ghost predicate LatencyInputsWithin(stored: Option<Hash>, os: seq<Outcome>, t: Tuning, lo: real, hi: real) {
    && (Load(stored).lat.Some? ==> lo <= Load(stored).lat.value <= hi)
    && (forall i :: 0 <= i < |os| && os[i].Success? && os[i].latencyMs >= 0 ==> lo <= os[i].latencyMs as real <= hi)
    && (Load(stored).lat.None? && FirstSuccessUnmeasured(os) ==> lo <= t.defaultLatency <= hi)
  }

  predicate FirstSuccessUnmeasured(os: seq<Outcome>) {
    if os == [] then false
    else if os[0].Success? then os[0].latencyMs < 0
    else FirstSuccessUnmeasured(os[1..])
  }

  predicate AnySuccess(os: seq<Outcome>) {
    exists i :: 0 <= i < |os| && os[i].Success?
  }

  lemma {:induction false} FirstSuccessOfPrefix(os: seq<Outcome>, last: Outcome)
    ensures FirstSuccessUnmeasured(os + [last])
         == if AnySuccess(os) then FirstSuccessUnmeasured(os) else last.Success? && last.latencyMs < 0
    ensures FirstSuccessUnmeasured(os) ==> AnySuccess(os)
  {
    if os == [] {
      assert os + [last] == [last];
    } else {
      FirstSuccessOfPrefix(os[1..], last);
      assert (os + [last])[1..] == os[1..] + [last];
      if AnySuccess(os) && !os[0].Success? {
        var i :| 0 <= i < |os| && os[i].Success?;
        assert os[1..][i - 1].Success?;
      }
      if AnySuccess(os[1..]) {
        var i :| 0 <= i < |os[1..]| && os[1..][i].Success?;
        assert os[i + 1].Success?;
      }
    }
  }

  /** The smoothed latency never leaves the range of what went into it. */
  lemma {:induction false} LatencyStaysWithinSamples(stored: Option<Hash>, os: seq<Outcome>, t: Tuning, lo: real,
      hi: real)
    requires Sensible(t) && LatencyInputsWithin(stored, os, t, lo, hi)
    ensures Load(ReportAll(stored, os, t)).lat.Some? <==> Load(stored).lat.Some? || AnySuccess(os)
    ensures Load(ReportAll(stored, os, t)).lat.Some? ==> lo <= Load(ReportAll(stored, os, t)).lat.value <= hi
  {
    hide Times, Smooth;
    if os != [] {
      var init, last := os[..|os| - 1], os[|os| - 1];
      assert os == init + [last];
      FirstSuccessOfPrefix(init, last);
      LatencyStaysWithinSamples(stored, init, t, lo, hi);
      var h := Load(ReportAll(stored, init, t));
      if last.Success? && last.latencyMs >= 0 && h.lat.Some? {
        SmoothBetween(t.alpha, last.latencyMs as real, h.lat.value, lo, hi);
      }
      assert AnySuccess(os) <==> AnySuccess(init) || last.Success? by {
        if AnySuccess(init) {
          var i :| 0 <= i < |init| && init[i].Success?;
          assert os[i].Success?;
        }
      }
    }
  }

  /** The smoothed token count stays between zero and the largest sample (or seed). */
  lemma {:induction false} TokensStayWithinSamples(stored: Option<Hash>, os: seq<Outcome>, t: Tuning, hi: real)
    requires Sensible(t) && 0.0 <= hi
    requires 0.0 <= Load(stored).tok.GetOr(0.0) <= hi
    requires forall i :: 0 <= i < |os| && os[i].Success? ==> os[i].tokens as real <= hi
    ensures 0.0 <= Load(ReportAll(stored, os, t)).tok.GetOr(0.0) <= hi
  {
    if os != [] {
      var init, last := os[..|os| - 1], os[|os| - 1];
      TokensStayWithinSamples(stored, init, t, hi);
      hide Times, Smooth;
      var h := Load(ReportAll(stored, init, t));
      if last.Success? && last.tokens >= 0 {
        SmoothBetween(t.alpha, last.tokens as real, h.tok.GetOr(0.0), 0.0, hi);
      }
    }
  }
}
