/**
 The Redis keys of one limiter key and the four Lua scripts that act on them. Each script is
 atomic, so it is one method; the clock and key expiry are methods of their own, so that a
 sequence of calls is an interleaving of any number of workers with time passing.
 The ghost log records every admission; the scripts never see it.
 */
module RedisStore {
  import opened Wrappers
  import opened TpmMember
  import opened SortedSets
  import opened SlidingWindow
  import opened RetryHints
  import opened ConcurrencyPeak
  import opened RealFacts
  import opened Adaptive
  import opened EffectiveConcurrency

  datatype ZKey = ZKey(entries: seq<Entry>, expireAt: int)
  datatype CounterKey = CounterKey(value: int, expireAt: int)
  datatype HashKey = HashKey(fields: Hash, expireAt: int)

  datatype Settings = Settings(window: int, concurrencyTtl: nat, autostateTtl: nat, tuning: Tuning)

  datatype Reply = Reply(verdict: Verdict, retryAfter: int, effective: int, bfOut: int, latOut: int)
  datatype Usage = Usage(rpm: int, tpm: int, inUse: int, sampledAt: int, latOut: int, tokOut: int, bfOut: int,
      peak: int)

  function NonNegative(x: real): Option<real> {
    if x >= 0.0 then Some(x) else None
  }

  /** An average as the scripts report it: rounded, or -1 for none. */
  function Shown(average: Option<real>): int {
    if average.Some? then RoundHalfUp(average.value) else -1
  }

  /** Which keys an expiry step removes, if their deadline has passed. */
  datatype Keys = Keys(rpm: bool, tpm: bool, total: bool, concurrency: bool, autostate: bool, peaks: set<int>)

  // ---- how a sorted set stands for the live part of the log ----

  function RpmEntry(a: Admission): Entry { Entry(a.time, a.request) }
  function TpmEntry(a: Admission): Entry { Entry(a.time, Encode(a.request, a.tokens)) }

  function Image(log: seq<Admission>, f: Admission -> Entry): (z: seq<Entry>)
    ensures |z| == |log|
    ensures forall i :: 0 <= i < |log| ==> z[i] == f(log[i])
  {
    seq(|log|, i requires 0 <= i < |log| => f(log[i]))
  }

  function EntriesOf(k: Option<ZKey>): seq<Entry> {
    if k.Some? then k.value.entries else []
  }

  /** The key holds exactly the admissions after the cutoff, and outlives all of them. */
  ghost predicate Backs(k: Option<ZKey>, f: Admission -> Entry, log: seq<Admission>, cutoff: int, window: int) {
    && ScoreSorted(EntriesOf(k))
    && multiset(EntriesOf(k)) == multiset(Image(Live(log, cutoff), f))
    && (k.Some? ==> forall i :: 0 <= i < |log| ==> log[i].time + 2 * window <= k.value.expireAt)
  }

  lemma {:induction false} AboveConcat(a: seq<Entry>, b: seq<Entry>, cutoff: int)
    ensures Above(a + b, cutoff) == Above(a, cutoff) + Above(b, cutoff)
  {
    if a == [] {
      assert a + b == b;
    } else {
      assert (a + b)[1..] == a[1..] + b;
      AboveConcat(a[1..], b, cutoff);
      assert ([a[0]] + Above(a[1..], cutoff)) + Above(b, cutoff) == [a[0]] + (Above(a[1..], cutoff) + Above(b, cutoff));
    }
  }

  /** Pruning the image of a log is the image of the pruned log. */
  lemma {:induction false} AboveImage(log: seq<Admission>, f: Admission -> Entry, cutoff: int)
    requires forall a :: f(a).score == a.time
    ensures Above(Image(log, f), cutoff) == Image(Live(log, cutoff), f)
  {
    hide Image, Above;
    if log == [] {
      EmptyImage(f);
      AllAbove([], cutoff);
    } else {
      var init, last := log[..|log| - 1], log[|log| - 1];
      assert log == init + [last];
      AboveImage(init, f, cutoff);
      ImageAppend(init, f, last);
      ImageAppend(Live(init, cutoff), f, last);
      AboveConcat(Image(init, f), [f(last)], cutoff);
      AboveOne(f(last), cutoff);
    }
  }

  lemma EmptyImage(f: Admission -> Entry)
    ensures Image([], f) == []
  {
  }

  lemma ImageAppend(log: seq<Admission>, f: Admission -> Entry, last: Admission)
    ensures Image(log + [last], f) == Image(log, f) + [f(last)]
  {
  }

  lemma AboveOne(e: Entry, cutoff: int)
    ensures Above([e], cutoff) == if e.score > cutoff then [e] else []
  {
  }

  lemma {:induction false} ImageTokens(log: seq<Admission>)
    ensures TokenSum(Image(log, TpmEntry)) == Tokens(log)
  {
    if log != [] {
      var init, last := log[..|log| - 1], log[|log| - 1];
      assert log == init + [last];
      ImageTokens(init);
      ImageAppend(init, TpmEntry, last);
      SumConcat(Image(init, TpmEntry), [TpmEntry(last)]);
      TokensRoundTrip(last.request, last.tokens);
    }
  }

  /** At any later cutoff the key still answers for the log. */
  lemma BackedAbove(k: Option<ZKey>, f: Admission -> Entry, log: seq<Admission>, cutoff: int, window: int, later: int)
    requires Backs(k, f, log, cutoff, window) && cutoff <= later
    requires forall a :: f(a).score == a.time
    ensures multiset(Above(EntriesOf(k), later)) == multiset(Image(Live(log, later), f))
    ensures |Above(EntriesOf(k), later)| == |Live(log, later)|
    ensures f == TpmEntry ==> TokenSum(Above(EntriesOf(k), later)) == Tokens(Live(log, later))
  {
    SameAbove(EntriesOf(k), Image(Live(log, cutoff), f), later);
    AboveImage(Live(log, cutoff), f, later);
    LiveLive(log, cutoff, later);
    SameSum(Above(EntriesOf(k), later), Image(Live(log, later), f));
    if f == TpmEntry {
      ImageTokens(Live(log, later));
    }
  }

  /** The key as pruning leaves it. */
  function Pruned(k: Option<ZKey>, cutoff: int): Option<ZKey> {
    if k.Some? then Some(k.value.(entries := Above(k.value.entries, cutoff))) else None
  }

  /** Pruning moves the cutoff forward; what is left counts and sums like the log. */
  lemma PruneBacks(k: Option<ZKey>, f: Admission -> Entry, log: seq<Admission>, cutoff: int, window: int, later: int)
    requires Backs(k, f, log, cutoff, window) && cutoff <= later
    requires forall a :: f(a).score == a.time
    ensures Backs(Pruned(k, later), f, log, later, window)
    ensures EntriesOf(Pruned(k, later)) == Above(EntriesOf(k), later)
    ensures |EntriesOf(Pruned(k, later))| == |Live(log, later)|
    ensures EntriesOf(Pruned(k, later)) == [] ==> Backs(None, f, log, later, window)
    ensures f == TpmEntry ==> TokenSum(EntriesOf(Pruned(k, later))) == Tokens(Live(log, later))
  {
    hide Live, Above, Image, TokenSum;
    BackedAbove(k, f, log, cutoff, window, later);
    AboveSorted(EntriesOf(k), later);
    assert Above([], later) == [] by { AllAbove([], later); }
  }

  lemma BackedTokens(k: Option<ZKey>, log: seq<Admission>, cutoff: int, window: int)
    requires Backs(k, TpmEntry, log, cutoff, window)
    ensures TokenSum(EntriesOf(k)) == Tokens(Live(log, cutoff))
    ensures |EntriesOf(k)| == |Live(log, cutoff)|
  {
    SameSum(EntriesOf(k), Image(Live(log, cutoff), TpmEntry));
    ImageTokens(Live(log, cutoff));
  }

  lemma BackedIsLive(k: Option<ZKey>, f: Admission -> Entry, log: seq<Admission>, cutoff: int, window: int, i: nat)
    requires Backs(k, f, log, cutoff, window) && i < |EntriesOf(k)|
    requires forall a :: f(a).score == a.time
    ensures EntriesOf(k)[i].score > cutoff
  {
    hide Live;
    var z, live := EntriesOf(k), Live(log, cutoff);
    assert z[i] in multiset(z);
    assert z[i] in Image(live, f);
    var j :| 0 <= j < |live| && Image(live, f)[j] == z[i];
    LiveSubset(log, cutoff, j);
  }

  /** The first entry whose removal makes room gives the first instant at which there is room. */
  lemma TpmHintExact(k: Option<ZKey>, log: seq<Admission>, window: int, now: int, i: nat, requested: nat, limit: int)
    requires Backs(k, TpmEntry, log, now - window, window)
    requires i < |EntriesOf(k)|
    requires TokenSum(EntriesOf(k)[i..]) + requested > limit
    requires TokenSum(EntriesOf(k)[i + 1..]) + requested <= limit
    ensures EntriesOf(k)[i].score > now - window
    ensures EarliestTpm(log, window, now, EntriesOf(k)[i].score + window, requested, limit)
  {
    hide Live, Above, Image, TokenSum, Tokens;
    var z := EntriesOf(k);
    var s := z[i].score;
    BackedIsLive(k, TpmEntry, log, now - window, window, i);
    BackedAbove(k, TpmEntry, log, now - window, window, s);
    AboveOwnScore(z, i, s);
    forall t | now <= t < s + window ensures !PassesTpm(log, window, t, requested, limit) {
      BackedAbove(k, TpmEntry, log, now - window, window, t - window);
      AboveEarlier(z, i, t - window);
    }
  }

  /** The oldest entry of the pruned request set is the oldest live admission. */
  lemma OldestEntry(k: Option<ZKey>, log: seq<Admission>, window: int, cutoff: int)
    requires Backs(k, RpmEntry, log, cutoff, window) && |EntriesOf(k)| > 0
    ensures OldestLive(log, cutoff, EntriesOf(k)[0].score)
  {
    hide Live, Above, Image, TokenSum;
    var z := EntriesOf(k);
    var s := z[0].score;
    BackedIsLive(k, RpmEntry, log, cutoff, window, 0);
    BackedAbove(k, RpmEntry, log, cutoff, window, s);
    BackedAbove(k, RpmEntry, log, cutoff, window, s - 1);
    BackedAbove(k, RpmEntry, log, cutoff, window, cutoff);
    AboveOwnScore(z, 0, s);
    AllAbove(z, s - 1);
    AllAbove(z, cutoff);
    SameCountSameLive(log, cutoff, s);
    SameCountSameLive(log, cutoff, s - 1);
  }

  /** A key whose deadline has passed holds nothing live: its loss loses nothing. */
  lemma ExpiryLosesNothing(k: ZKey, f: Admission -> Entry, log: seq<Admission>, cutoff: int, window: int, now: int)
    requires Backs(Some(k), f, log, cutoff, window) && window > 0 && k.expireAt <= now
    ensures Backs(None, f, log, now - window, window)
  {
    NothingLive(log, now - window);
  }

  /** ZADD of a member not seen before extends the key by exactly the new admission. */
  lemma AddBacks(k: Option<ZKey>, f: Admission -> Entry, log: seq<Admission>, cutoff: int, window: int, a: Admission)
    requires Backs(k, f, log, cutoff, window) && NotAfter(log, a.time) && cutoff < a.time && f(a).score == a.time
    requires forall i :: 0 <= i < |log| ==> f(log[i]).member != f(a).member
    ensures Backs(Some(ZKey(ZAdd(EntriesOf(k), a.time, f(a).member), a.time + 2 * window)), f, log + [a], cutoff,
        window)
  {
    hide Live, Image, Insert;
    var z, live := EntriesOf(k), Live(log, cutoff);
    forall e | e in z ensures e.member != f(a).member {
      assert e in multiset(z);
      assert e in Image(live, f);
      var i :| 0 <= i < |Image(live, f)| && Image(live, f)[i] == e;
      LiveSubset(log, cutoff, i);
    }
    assert Without(z, f(a).member) == z;
    InsertSorted(z, f(a));
    LiveAppend(log, a, cutoff);
    ImageAppend(live, f, a);
  }

  lemma {:induction false} LiveSubset(log: seq<Admission>, cutoff: int, i: nat)
    requires i < |Live(log, cutoff)|
    ensures Live(log, cutoff)[i] in log && Live(log, cutoff)[i].time > cutoff
  {
    if log != [] && i < |Live(log[..|log| - 1], cutoff)| {
      LiveSubset(log[..|log| - 1], cutoff, i);
      assert Live(log, cutoff)[i] == Live(log[..|log| - 1], cutoff)[i];
    }
  }

  /** Both sets and the token sum after a new request was added. */
  lemma AdmitBacks(rpm: Option<ZKey>, tpm: Option<ZKey>, log: seq<Admission>, rpmCutoff: int, tpmCutoff: int,
      window: int, e: Admission)
    requires NotAfter(log, e.time) && rpmCutoff < e.time && tpmCutoff < e.time
    requires Backs(rpm, RpmEntry, log, rpmCutoff, window) && Backs(tpm, TpmEntry, log, tpmCutoff, window)
    requires forall i :: 0 <= i < |log| ==> log[i].request != e.request
    ensures Backs(Some(ZKey(ZAdd(EntriesOf(rpm), e.time, e.request), e.time + 2 * window)), RpmEntry, log + [e],
        rpmCutoff, window)
    ensures Backs(Some(ZKey(ZAdd(EntriesOf(tpm), e.time, Encode(e.request, e.tokens)), e.time + 2 * window)),
        TpmEntry, log + [e], tpmCutoff, window)
    ensures Tokens(Live(log + [e], tpmCutoff)) == Tokens(Live(log, tpmCutoff)) + e.tokens
    ensures NotAfter(log + [e], e.time)
  {
    hide Live, Image, Backs, Tokens, Encode, ZAdd;
    forall i | 0 <= i < |log| ensures TpmEntry(log[i]).member != TpmEntry(e).member {
      if TpmEntry(log[i]).member == TpmEntry(e).member {
        EncodeInjective(log[i].request, log[i].tokens, e.request, e.tokens);
      }
    }
    AddBacks(rpm, RpmEntry, log, rpmCutoff, window, e);
    AddBacks(tpm, TpmEntry, log, tpmCutoff, window, e);
    LiveAppend(log, e, tpmCutoff);
    TokensAppend(Live(log, tpmCutoff), e);
  }

  class Store {
    const settings: Settings
    var now: int
    var rpm: Option<ZKey>
    var tpm: Option<ZKey>
    var total: Option<CounterKey>
    var concurrency: Option<CounterKey>
    var autostate: Option<HashKey>
    var peaks: map<int, PeakKey>

    ghost var log: seq<Admission>
    ghost var reserves: seq<Reserve>
    ghost var peakDrops: map<int, nat>
    ghost var rpmCutoff: int
    ghost var tpmCutoff: int
    ghost var slotsUntil: int

    ghost predicate Valid()
      reads this
    {
      && settings.window > 0
      && NotAfter(log, now)
      && rpmCutoff <= now - settings.window
      && tpmCutoff <= now - settings.window
      && Backs(rpm, RpmEntry, log, rpmCutoff, settings.window)
      && Backs(tpm, TpmEntry, log, tpmCutoff, settings.window)
      && (tpm.Some? && total.Some? ==> total.value.value == Tokens(Live(log, tpmCutoff)))
      && (concurrency.Some? ==> concurrency.value.value >= 1 && concurrency.value.expireAt == slotsUntil)
      && PeaksRight(peaks, reserves, peakDrops, settings.window, now)
    }

    function InUse(): nat
      reads this
    {
      if concurrency.Some? && concurrency.value.value > 0 then concurrency.value.value else 0
    }

    function Fields(): Option<Hash>
      reads this
    {
      if autostate.Some? then Some(autostate.value.fields) else None
    }

    function FieldsUntil(): Option<int>
      reads this
    {
      if autostate.Some? then Some(autostate.value.expireAt) else None
    }

    /** Both sets and the cached total live for ms from now. */
    predicate KeepsFor(ms: int)
      reads this
    {
      && rpm.Some? && rpm.value.expireAt == now + ms
      && tpm.Some? && tpm.value.expireAt == now + ms
      && (total.Some? ==> total.value.expireAt == now + ms)
    }

    ghost function View(): View
      reads this
    {
      SlidingWindow.View(settings.window, settings.concurrencyTtl, now, log, InUse(), slotsUntil)
    }

    ghost predicate Unseen(request: string)
      reads this
    {
      forall i :: 0 <= i < |log| ==> log[i].request != request
    }

    constructor (settings: Settings, now: int)
      requires settings.window > 0
      ensures Valid()
      ensures this.settings == settings && Fields() == None && reserves == [] && peaks == map[] && peakDrops == map[]
      ensures View() == SlidingWindow.View(settings.window, settings.concurrencyTtl, now, [], 0, now)
    {
      this.settings, this.now := settings, now;
      rpm, tpm, total, concurrency, autostate := None, None, None, None, None;
      log, slotsUntil := [], now;
      peaks, reserves, peakDrops := map[], [], map[];
      NoPeaks(settings.window, now);
      rpmCutoff, tpmCutoff := now - settings.window, now - settings.window;
    }

    /** Time passes. */
    method Tick(ms: nat)
      requires Valid()
      modifies this`now
      ensures Valid() && now == old(now) + ms
    {
      hide PeaksRight;
      PeaksLater(peaks, reserves, peakDrops, settings.window, now, now + ms);
      now := now + ms;
    }

    /** Expiry of the request set. */
    method ExpireRpm(wanted: bool)
      requires Valid()
      modifies this`rpm, this`rpmCutoff
      ensures Valid()
      ensures rpm == if wanted && old(rpm).Some? && old(rpm).value.expireAt <= now then None else old(rpm)
    {
      hide Live, Image, Backs, NotAfter, PeaksRight, Tokens;
      if wanted && rpm.Some? && rpm.value.expireAt <= now {
        ExpiryLosesNothing(rpm.value, RpmEntry, log, rpmCutoff, settings.window, now);
        rpm, rpmCutoff := None, now - settings.window;
      }
    }

    /** Expiry of the token set and of the cached total. */
    method ExpireTpm(entries: bool, cached: bool)
      requires Valid()
      modifies this`tpm, this`tpmCutoff, this`total
      ensures Valid()
      ensures tpm == if entries && old(tpm).Some? && old(tpm).value.expireAt <= now then None else old(tpm)
      ensures total == if cached && old(total).Some? && old(total).value.expireAt <= now then None else old(total)
    {
      hide Live, Image, Backs, NotAfter, PeaksRight, Tokens;
      if entries && tpm.Some? && tpm.value.expireAt <= now {
        ExpiryLosesNothing(tpm.value, TpmEntry, log, tpmCutoff, settings.window, now);
        tpm, tpmCutoff := None, now - settings.window;
      }
      if cached && total.Some? && total.value.expireAt <= now {
        total := None;
      }
    }

    /** Expiry of the counter and of the adaptive hash. */
    method ExpireState(keys: Keys)
      requires Valid()
      modifies this`concurrency, this`autostate
      ensures Valid()
      ensures InUse() == if keys.concurrency && slotsUntil <= now then 0 else old(InUse())
      ensures Fields() == if keys.autostate && old(FieldsUntil()).Some? && old(FieldsUntil()).value <= now then None
          else old(Fields())
      ensures Fields().Some? ==> FieldsUntil() == old(FieldsUntil())
    {
      hide Live, Image, Backs, NotAfter, PeaksRight, Tokens;
      if keys.concurrency && concurrency.Some? && concurrency.value.expireAt <= now {
        concurrency := None;
      }
      if keys.autostate && autostate.Some? && autostate.value.expireAt <= now {
        autostate := None;
      }
    }

    /** Expiry of peak keys. */
    method ExpirePeaks(minutes: set<int>)
      requires Valid()
      modifies this`peaks, this`peakDrops
      ensures Valid() && peaks == Remaining(old(peaks), minutes, now)
      ensures peakDrops == Dropped(old(peaks), peaks, old(peakDrops), |reserves|)
    {
      hide Live, Image, Backs, NotAfter, PeaksRight, Dropped, Remaining;
      PeaksExpire(peaks, reserves, peakDrops, settings.window, now, minutes);
      var remaining := Remaining(peaks, minutes, now);
      peakDrops := Dropped(peaks, remaining, peakDrops, |reserves|);
      peaks := remaining;
    }

    /** Redis drops keys whose deadline has passed: any of them, at any time from the deadline on. */
    method Expire(keys: Keys)
      requires Valid()
      modifies this
      ensures Valid() && View() == old(View()).(inUse := InUse()) && reserves == old(reserves)
      ensures peaks == Remaining(old(peaks), keys.peaks, now)
      ensures peakDrops == Dropped(old(peaks), peaks, old(peakDrops), |reserves|)
      ensures InUse() == if keys.concurrency && old(slotsUntil) <= now then 0 else old(InUse())
      ensures Fields() == if keys.autostate && old(FieldsUntil()).Some? && old(FieldsUntil()).value <= now then None
          else old(Fields())
      ensures Fields().Some? ==> FieldsUntil() == old(FieldsUntil())
      ensures rpm == if keys.rpm && old(rpm).Some? && old(rpm).value.expireAt <= now then None else old(rpm)
      ensures tpm == if keys.tpm && old(tpm).Some? && old(tpm).value.expireAt <= now then None else old(tpm)
      ensures total == if keys.total && old(total).Some? && old(total).value.expireAt <= now then None else old(total)
    {
      hide Live, Image, Backs, NotAfter, PeaksRight, Dropped, Remaining, Tokens;
      ExpireRpm(keys.rpm);
      ExpireTpm(keys.tpm, keys.total);
      ExpireState(keys);
      ExpirePeaks(keys.peaks);
    }

    /** prune_rpm: returns exactly the number of admissions inside the window. */
    method PruneRpm() returns (count: nat)
      requires Valid()
      modifies this`rpm, this`rpmCutoff
      ensures Valid() && rpmCutoff == now - settings.window
      ensures count == |Live(log, now - settings.window)|
      ensures count == |EntriesOf(rpm)|
      ensures rpm.None? <==> count == 0
    {
      hide Live, Above, Image, Backs, NotAfter, PeaksRight;
      var cutoff := now - settings.window;
      PruneBacks(rpm, RpmEntry, log, rpmCutoff, settings.window, cutoff);
      rpm := Pruned(rpm, cutoff);
      count := |EntriesOf(rpm)|;
      if count == 0 {
        rpm := None;
      }
      rpmCutoff := cutoff;
    }

    /** prune_tpm: returns exactly the tokens admitted inside the window, whether it could keep
        the cached total or had to rebuild it. */
    method PruneTpm() returns (sum: nat)
      requires Valid()
      modifies this`tpm, this`total, this`tpmCutoff
      ensures Valid() && tpmCutoff == now - settings.window
      ensures sum == Tokens(Live(log, now - settings.window)) == TokenSum(EntriesOf(tpm))
      ensures tpm.None? <==> EntriesOf(tpm) == []
      ensures total == if sum > 0 then Some(CounterKey(sum, now + 2 * settings.window)) else None
    {
      hide Live, Above, Image, Backs, NotAfter, TokenSum, Tokens, UpTo, PeaksRight;
      EmptySum();
      var cutoff := now - settings.window;
      PruneBacks(tpm, TpmEntry, log, tpmCutoff, settings.window, cutoff);
      BackedTokens(tpm, log, tpmCutoff, settings.window);
      SumSplits(EntriesOf(tpm), cutoff);

      var expired := UpTo(EntriesOf(tpm), cutoff);
      var expiredTokens := TokenSum(expired);
      var hadTotal := total.Some?;
      var value := if total.Some? then total.value.value else 0;
      if |expired| > 0 && tpm.Some? {
        tpm := Pruned(tpm, cutoff);
      }
      tpmCutoff := cutoff;
      if |EntriesOf(tpm)| == 0 {
        tpm, total := None, None;
        return 0;
      }
      value := if hadTotal then value - expiredTokens else TokenSum(EntriesOf(tpm));
      if value > 0 {
        total := Some(CounterKey(value, now + 2 * settings.window));
        return value;
      }
      total := None;
      return 0;
    }

    /** The retry hint of a token rejection: exact when the request fits the limit at all, and
        the whole window exactly when it never can. */
    method TpmRetryAfter(used: nat, requested: nat, limit: int) returns (ms: int)
      requires Valid() && tpmCutoff == now - settings.window
      requires used == TokenSum(EntriesOf(tpm)) && used + requested > limit
      ensures ms >= 1
      ensures requested <= limit ==> EarliestTpm(log, settings.window, now, now + ms, requested, limit)
      ensures requested > limit ==>
          ms == settings.window && forall t :: !PassesTpm(log, settings.window, t, requested, limit)
    {
      hide Live, Above, Image, Backs, NotAfter, TokenSum, Tokens, EarliestTpm;
      EmptySum();
      var events := EntriesOf(tpm);
      var projected: int := used;
      var retryAt := None;
      var i := 0;
      assert events[0..] == events;
      while i < |events|
        invariant 0 <= i <= |events|
        invariant projected == TokenSum(events[i..])
        invariant projected + requested > limit
        invariant retryAt == None
      {
        SumFrom(events, i);
        projected := projected - MemberTokens(events[i].member);
        if projected + requested <= limit {
          retryAt := Some(events[i].score + settings.window);
          break;
        }
        i := i + 1;
      }
      ms := settings.window;
      if retryAt.Some? {
        TpmHintExact(tpm, log, settings.window, now, i, requested, limit);
        ms := if retryAt.value - now > 0 then retryAt.value - now else 0;
      } else {
        assert events[i..] == [];
      }
    }

    /** The acquire script. Its verdict and its effect on the log and the counter are those of
        the plain sliding-window log, and its retry hints are exact over that log. */
    method Acquire(a: AcquireArgs) returns (r: Reply)
      requires Valid() && Unseen(a.request)
      modifies this
      ensures Valid()
      ensures r.verdict == Judge(old(View()), a, r.effective)
      ensures View() == Acquired(old(View()), a, r.effective)
      ensures r.verdict == ByRpm <==> !old(RoomRpm(View(), a))
      ensures r.verdict == ByTpm <==> old(RoomRpm(View(), a) && !RoomTpm(View(), a))
      ensures r.verdict == ByConcurrency
         <==> old(RoomRpm(View(), a) && RoomTpm(View(), a)) && a.reserve && old(InUse()) >= r.effective > 0
      ensures r.effective == if a.autoConcurrency then
          Compute(old(Fields()), a.rpmLimit, a.tpmLimit, a.ceiling, a.tokens, settings.tuning.defaultLatency).effective
          else a.ceiling
      ensures r.bfOut == if a.autoConcurrency then RoundHalfUp(Times(Derivation(a, old(Fields())).bf, 1000.0)) else 1000
      ensures r.latOut == if a.autoConcurrency then Shown(NonNegative(Derivation(a, old(Fields())).lat)) else -1
      ensures Fields() == old(Fields())
      ensures reserves == old(reserves) + if r.verdict == Granted && a.reserve then [Reserve(now, InUse())] else []
      ensures peaks == if r.verdict == Granted
          && a.reserve then Grown(old(peaks), now, InUse(), settings.window) else old(peaks)
      ensures peakDrops == old(peakDrops)
      ensures HintRight(old(View()), a, r.verdict, r.retryAfter)
      ensures (r.verdict == Granted ==> r.retryAfter == 0) && (r.verdict == ByConcurrency ==> r.retryAfter == 250)
      ensures r.verdict == Granted ==> KeepsFor(2 * settings.window)
      ensures r.verdict == Granted ==> (total.Some? <==> old(Tokens(Live(log, now - settings.window))) + a.tokens > 0)
      ensures r.verdict == Granted && a.reserve ==> peaks[Minute(now)].expireAt == now + 2 * settings.window
      ensures FieldsUntil() == if r.verdict == Granted && a.autoConcurrency && Fields().Some? then
          Some(now + settings.autostateTtl) else old(FieldsUntil())
    {
      hide Live, Image, Backs, NotAfter, TokenSum, Tokens, Compute, RoundHalfUp, Times, PeaksRight, HintRight,
        Shown, NonNegative, Minute, PassesRpm, PassesTpm;
      VerdictsAt(a);
      var tpmUsed;
      r, tpmUsed := Decide(a);
      if r.verdict == Granted {
        Admit(a, tpmUsed);
        KeepAutostate(a);
      }
      PlainHints(old(View()), a, r.verdict, r.retryAfter);
    }

    lemma PlainHints(v: View, a: AcquireArgs, verdict: Verdict, ms: int)
      requires HintRight(v, a, verdict, ms)
      ensures (verdict == Granted ==> ms == 0) && (verdict == ByConcurrency ==> ms == 250)
    {
    }

    /** The script up to its verdict: prune, derive the allowance, and check the three limits. */
    method Decide(a: AcquireArgs) returns (r: Reply, tpmUsed: nat)
      requires Valid()
      modifies this`rpm, this`rpmCutoff, this`tpm, this`tpmCutoff, this`total
      ensures Valid() && tpmCutoff == now - settings.window && tpmUsed == Tokens(Live(log, tpmCutoff))
      ensures r.verdict == Judge(View(), a, r.effective) && HintRight(View(), a, r.verdict, r.retryAfter)
      ensures r.effective == if a.autoConcurrency then Derivation(a, Fields()).effective else a.ceiling
      ensures r.bfOut == if a.autoConcurrency then RoundHalfUp(Times(Derivation(a, Fields()).bf, 1000.0)) else 1000
      ensures r.latOut == if a.autoConcurrency then Shown(NonNegative(Derivation(a, Fields()).lat)) else -1
    {
      hide Live, Image, Backs, NotAfter, TokenSum, Tokens, Compute, RoundHalfUp, Times, PeaksRight, OldestLive,
        EarliestTpm, Shown, NonNegative;
      var rpmUsed := PruneRpm();
      tpmUsed := PruneTpm();
      var effective, bfOut, latOut := Estimate(a);
      r := Reply(Granted, 0, effective, bfOut, latOut);

      if a.rpmLimit > 0 && rpmUsed + 1 > a.rpmLimit {
        var retryAfter := RpmRetryAfter(rpmUsed);
        r := r.(verdict := ByRpm, retryAfter := retryAfter);
        return;
      }

      if a.tpmLimit > 0 && tpmUsed + a.tokens > a.tpmLimit {
        var retryAfter := TpmRetryAfter(tpmUsed, a.tokens, a.tpmLimit);
        r := r.(verdict := ByTpm, retryAfter := retryAfter);
        return;
      }

      if a.reserve && effective > 0 && InUse() + 1 > effective {
        r := r.(verdict := ByConcurrency, retryAfter := 250);
      }
    }

    /** The allowance and what the reply says about it. */
    method Estimate(a: AcquireArgs) returns (effective: int, bfOut: int, latOut: int)
      ensures effective == if a.autoConcurrency then Derivation(a, Fields()).effective else a.ceiling
      ensures bfOut == if a.autoConcurrency then RoundHalfUp(Times(Derivation(a, Fields()).bf, 1000.0)) else 1000
      ensures latOut == if a.autoConcurrency then Shown(NonNegative(Derivation(a, Fields()).lat)) else -1
    {
      hide Compute, RoundHalfUp, Times;
      effective := a.ceiling;
      var bf, lat := 1.0, -1.0;
      if a.autoConcurrency {
        var d := Derivation(a, Fields());
        effective, bf, lat := d.effective, d.bf, d.lat;
      }
      bfOut := RoundHalfUp(Times(bf, 1000.0));
      ThousandRounds();
      latOut := if lat >= 0.0 then RoundHalfUp(lat) else -1;
    }

    /** The retry hint of a request rejection. */
    method RpmRetryAfter(used: nat) returns (ms: int)
      requires Valid() && rpmCutoff == now - settings.window && used == |EntriesOf(rpm)| > 0
      ensures ms >= 1 && OldestLive(log, now - settings.window, now + ms - settings.window)
    {
      hide Live, Image, Backs, NotAfter, PeaksRight;
      ms := settings.window;
      if |EntriesOf(rpm)| > 0 {
        OldestEntry(rpm, log, settings.window, now - settings.window);
        var wait := EntriesOf(rpm)[0].score + settings.window - now;
        ms := if wait > 0 then wait else 0;
      }
    }

    /** PEXPIRE of the adaptive hash after an admission. */
    method KeepAutostate(a: AcquireArgs)
      requires Valid()
      modifies this`autostate
      ensures Valid() && Fields() == old(Fields())
      ensures FieldsUntil() == if a.autoConcurrency && Fields().Some? then Some(now + settings.autostateTtl)
          else old(FieldsUntil())
    {
      hide Live, Image, Backs, NotAfter, PeaksRight;
      if a.autoConcurrency && autostate.Some? {
        autostate := Some(autostate.value.(expireAt := now + settings.autostateTtl));
      }
    }

    lemma VerdictsAt(a: AcquireArgs)
      ensures forall effective ::
        && (Judge(View(), a, effective) == ByRpm <==> !RoomRpm(View(), a))
        && (Judge(View(), a, effective) == ByTpm <==> RoomRpm(View(), a) && !RoomTpm(View(), a))
        && (Judge(View(), a, effective) == ByConcurrency
            <==> RoomRpm(View(), a) && RoomTpm(View(), a) && a.reserve && InUse() >= effective > 0)
    {
      hide Judge, RoomRpm, RoomTpm;
      forall effective
        ensures Judge(View(), a, effective) == ByRpm <==> !RoomRpm(View(), a)
        ensures Judge(View(), a, effective) == ByTpm <==> RoomRpm(View(), a) && !RoomTpm(View(), a)
        ensures Judge(View(), a, effective) == ByConcurrency
           <==> RoomRpm(View(), a) && RoomTpm(View(), a) && a.reserve && InUse() >= effective > 0
      {
        VerdictsExactly(View(), a, effective);
      }
    }

    lemma ThousandRounds()
      ensures RoundHalfUp(Times(1.0, 1000.0)) == 1000
    {
    }

    function Derivation(a: AcquireArgs, stored: Option<Hash>): Derived {
      Compute(stored, a.rpmLimit, a.tpmLimit, a.ceiling, a.tokens, settings.tuning.defaultLatency)
    }

    /** The writes of a granted acquire. */
    method Admit(a: AcquireArgs, tpmUsed: nat)
      requires Valid() && Unseen(a.request)
      requires tpmCutoff == now - settings.window && tpmUsed == Tokens(Live(log, tpmCutoff))
      modifies this`rpm, this`tpm, this`total, this`concurrency, this`peaks, this`log, this`reserves, this`slotsUntil
      ensures Valid()
      ensures log == old(log) + [Admission(now, a.tokens, a.request)]
      ensures InUse() == if a.reserve then old(InUse()) + 1 else old(InUse())
      ensures slotsUntil == if a.reserve then now + settings.concurrencyTtl else old(slotsUntil)
      ensures reserves == old(reserves) + if a.reserve then [Reserve(now, InUse())] else []
      ensures peaks == if a.reserve then Grown(old(peaks), now, InUse(), settings.window) else old(peaks)
      ensures KeepsFor(2 * settings.window)
      ensures total.Some? <==> tpmUsed + a.tokens > 0
    {
      hide Live, Image, Backs, NotAfter, TokenSum, Tokens, Encode, ZAdd, PeaksRight, Grown;
      var ttl := 2 * settings.window;
      ghost var e := Admission(now, a.tokens, a.request);
      AdmitBacks(rpm, tpm, log, rpmCutoff, tpmCutoff, settings.window, e);
      rpm := Some(ZKey(ZAdd(EntriesOf(rpm), now, a.request), now + ttl));
      tpm := Some(ZKey(ZAdd(EntriesOf(tpm), now, Encode(a.request, a.tokens)), now + ttl));
      var updated := tpmUsed + a.tokens;
      total := if updated > 0 then Some(CounterKey(updated, now + ttl)) else None;
      log := log + [e];
      if a.reserve {
        TakeSlot();
      }
    }

    /** The writes for a reserved slot. */
    method TakeSlot()
      requires Valid()
      modifies this`concurrency, this`peaks, this`reserves, this`slotsUntil
      ensures Valid() && InUse() == old(InUse()) + 1 && slotsUntil == now + settings.concurrencyTtl
      ensures reserves == old(reserves) + [Reserve(now, InUse())]
      ensures peaks == Grown(old(peaks), now, InUse(), settings.window)
    {
      hide Live, Image, Backs, NotAfter, Tokens, PeaksRight, Grown;
      var level := InUse() + 1;
      concurrency := Some(CounterKey(level, now + settings.concurrencyTtl));
      slotsUntil := now + settings.concurrencyTtl;
      RecordPeak(level);
    }

    /** The per-minute peak, raised or kept alive. */
    method RecordPeak(level: nat)
      requires PeaksRight(peaks, reserves, peakDrops, settings.window, now) && level >= 1
      modifies this`peaks, this`reserves
      ensures PeaksRight(peaks, reserves, peakDrops, settings.window, now)
      ensures reserves == old(reserves) + [Reserve(now, level)]
      ensures peaks == Grown(old(peaks), now, level, settings.window)
    {
      hide PeaksRight, Minute;
      var minute := Minute(now);
      var peak := Peak(peaks, minute);
      var key := if level > peak then PeakKey(level, now + 2 * settings.window)
          else PeakKey(peak, now + 2 * settings.window);
      PeaksGrow(peaks, reserves, peakDrops, settings.window, now, level);
      peaks, reserves := peaks[minute := key], reserves + [Reserve(now, level)];
    }

    /** The release script: counts down, never below zero, and says whether there was a slot. */
    method Release() returns (released: bool)
      requires Valid()
      modifies this`concurrency, this`slotsUntil
      ensures Valid() && View() == Released(old(View()))
      ensures released <==> old(InUse()) > 0
    {
      hide Backs, NotAfter, PeaksRight, Live, Image;
      var value := InUse();
      slotsUntil := now + settings.concurrencyTtl;
      if value <= 0 {
        concurrency := None;
        return false;
      }
      if value <= 1 {
        concurrency := None;
        return true;
      }
      concurrency := Some(CounterKey(value - 1, now + settings.concurrencyTtl));
      return true;
    }

    /** The report script. */
    method Report(o: Outcome) returns (bfOut: int)
      requires Valid()
      modifies this`autostate
      ensures Valid() && Fields() == Some(Reported(old(Fields()), o, settings.tuning))
      ensures FieldsUntil() == Some(now + settings.autostateTtl)
      ensures bfOut == RoundHalfUp(Times(Reported(old(Fields()), o, settings.tuning).bf, 1000.0))
    {
      hide Times, RoundHalfUp, Backs, NotAfter, Live;
      var t := settings.tuning;
      var lat, tok, bf := None, None, 1.0;
      if autostate.Some? {
        lat, tok, bf := autostate.value.fields.lat, autostate.value.fields.tok, autostate.value.fields.bf;
      }
      match o {
        case Success(latencyMs, tokens) =>
          if latencyMs >= 0 {
            lat := if lat.None? then Some(latencyMs as real)
                else Some(Times(t.alpha, latencyMs as real) + Times(1.0 - t.alpha, lat.value));
          } else if lat.None? {
            lat := Some(t.defaultLatency);
          }
          if tok.None? {
            tok := Some(0.0);
          }
          if tokens >= 0 {
            tok := if tok.value <= 0.0 then Some(tokens as real)
                else Some(Times(t.alpha, tokens as real) + Times(1.0 - t.alpha, tok.value));
          }
          bf := Min(1.0, bf + t.recoverStep);
        case UpstreamThrottle =>
          bf := Max(t.floor, Times(bf, t.mult));
      }
      autostate := Some(HashKey(Hash(lat, tok, bf), now + settings.autostateTtl));
      bfOut := RoundHalfUp(Times(bf, 1000.0));
    }

    lemma PeakReadIsRight()
      requires PeaksRight(peaks, reserves, peakDrops, settings.window, now)
      ensures Since(peakDrops, Minute(now)) <= |reserves|
      ensures Peak(peaks, Minute(now))
          == PeakOf(reserves[Since(peakDrops, Minute(now))..], Minute(now)) <= PeakOf(reserves, Minute(now))
      ensures OutlivesMinute(settings.window) ==> Peak(peaks, Minute(now)) == PeakOf(reserves, Minute(now))
    {
      PeakReadExactIff(peaks, reserves, peakDrops, settings.window, now);
    }

    /** The usage script: reads the same exact counts, and changes nothing observable. */
    method ReadUsage() returns (u: Usage)
      requires Valid()
      modifies this
      ensures Valid() && View() == old(View()) && Fields() == old(Fields()) && reserves == old(reserves)
      ensures FieldsUntil() == old(FieldsUntil())
      ensures u.rpm == |Live(log, now - settings.window)|
      ensures u.tpm == Tokens(Live(log, now - settings.window))
      ensures u.inUse == InUse() && u.sampledAt == now
      ensures Since(peakDrops, Minute(now)) <= |reserves|
      ensures u.peak == PeakOf(reserves[Since(peakDrops, Minute(now))..], Minute(now)) <= PeakOf(reserves, Minute(now))
      ensures u.peak == Peak(peaks, Minute(now)) && peaks == old(peaks) && peakDrops == old(peakDrops)
      ensures OutlivesMinute(settings.window) ==> u.peak == PeakOf(reserves, Minute(now))
      ensures Fields().None? ==> u.latOut == u.tokOut == u.bfOut == -1
      ensures Fields().Some? ==> u.latOut == Shown(Fields().value.lat) && u.tokOut == Shown(Fields().value.tok)
      ensures Fields().Some? ==> u.bfOut == RoundHalfUp(Times(Fields().value.bf, 1000.0))
    {
      hide Live, Image, Backs, NotAfter, TokenSum, Tokens, PeaksRight;
      var r := PruneRpm();
      var t := PruneTpm();
      var h := Load(Fields());
      u := Usage(r, t, InUse(), now,
                 if h.lat.Some? then RoundHalfUp(h.lat.value) else -1,
                 if h.tok.Some? then RoundHalfUp(h.tok.value) else -1,
                 if autostate.Some? then RoundHalfUp(Times(h.bf, 1000.0)) else -1,
                 Peak(peaks, Minute(now)));
      PeakReadIsRight();
    }
  }

  /** With a window under half a minute a peak can be lost while its minute lasts: a run in which a
      slot is taken, the key of the minute expires, and the same minute then reads 0. */
  method ShortWindowLosesPeak(settings: Settings) returns (s: Store, u: Usage)
    requires settings.window > 0 && !OutlivesMinute(settings.window)
    ensures fresh(s) && s.Valid() && s.settings == settings
    ensures u.sampledAt == s.now && PeakOf(s.reserves, Minute(s.now)) == 1 && u.peak == 0
  {
    hide Live, Image, Backs, NotAfter, PeaksRight, HintRight, Compute, RoundHalfUp, Minute;
    s := new Store(settings, 0);
    StartsAtMinute(settings.window);
    var r := s.Acquire(AcquireArgs(0, 0, 1, 0, "a", false, true));
    s.Tick(2 * settings.window);
    s.Expire(Keys(false, false, false, false, false, {0}));
    u := s.ReadUsage();
    assert s.reserves == [Reserve(0, 1)];
    assert [Reserve(0, 1)][..0] == [];
  }

  lemma StartsAtMinute(window: int)
    requires window > 0 && !OutlivesMinute(window)
    ensures Minute(0) == 0 == Minute(2 * window)
  {
  }
}
