/**
 The highest concurrency level reached in each wall-clock minute, kept in one key per minute.
 */
module ConcurrencyPeak {

  const MINUTE_MS := 60000

  /** One slot taken: when, and the level of the counter it led to. */
  datatype Reserve = Reserve(time: int, level: nat)

  datatype PeakKey = PeakKey(value: int, expireAt: int)

  /** The minute an instant belongs to. */
  function Minute(t: int): (m: int)
    ensures m % 60000 == 0 && m <= t < m + 60000
  {
    t / MINUTE_MS * MINUTE_MS
  }

  /** The highest level reached in a minute, zero if no slot was taken in it. */
  function PeakOf(reserves: seq<Reserve>, minute: int): nat {
    if reserves == [] then 0
    else
      var last, before := reserves[|reserves| - 1], PeakOf(reserves[..|reserves| - 1], minute);
      if Minute(last.time) == minute && last.level > before then last.level else before
  }

  /** It is the least bound: no level of the minute exceeds it, and some level reaches it. */
  lemma {:induction false} PeakIsHighest(reserves: seq<Reserve>, minute: int)
    ensures forall r :: r in reserves && Minute(r.time) == minute ==> r.level <= PeakOf(reserves, minute)
    ensures PeakOf(reserves, minute) > 0 ==>
              exists r :: r in reserves && Minute(r.time) == minute && r.level == PeakOf(reserves, minute)
  {
    hide Minute;
    if reserves != [] {
      var init, last := reserves[..|reserves| - 1], reserves[|reserves| - 1];
      assert reserves == init + [last];
      PeakIsHighest(init, minute);
      if PeakOf(reserves, minute) > PeakOf(init, minute) {
        assert last in reserves;
      }
    }
  }

  function Higher(a: nat, b: nat): nat { if a > b then a else b }

  lemma {:induction false} PeakOfBoth(a: seq<Reserve>, b: seq<Reserve>, minute: int)
    ensures PeakOf(a + b, minute) == Higher(PeakOf(a, minute), PeakOf(b, minute))
  {
    hide Minute;
    if b == [] {
      assert a + b == a;
    } else {
      assert (a + b)[..|a + b| - 1] == a + b[..|b| - 1];
      PeakOfBoth(a, b[..|b| - 1], minute);
    }
  }

  /** A key lives at least as long as its minute. */
  predicate OutlivesMinute(window: int) {
    2 * window >= MINUTE_MS
  }

  function Peak(keys: map<int, PeakKey>, minute: int): int {
    if minute in keys then keys[minute].value else 0
  }

  /** The keys after a slot was taken: the current one raised, or only kept alive. */
  function Grown(keys: map<int, PeakKey>, now: int, level: nat, window: int): map<int, PeakKey> {
    var peak := Peak(keys, Minute(now));
    keys[Minute(now) := PeakKey(if level > peak then level else peak, now + 2 * window)]
  }

  /** The keys that an expiry step of some minutes leaves. */
  function Remaining(keys: map<int, PeakKey>, minutes: set<int>, now: int): map<int, PeakKey> {
    map m | m in keys && !(m in minutes && keys[m].expireAt <= now) :: keys[m]
  }

  /** How many slots had been taken when a minute's key was last dropped. */
  function Since(drops: map<int, nat>, minute: int): nat {
    if minute in drops then drops[minute] else 0
  }

  ghost predicate Bounded(drops: map<int, nat>, reserves: seq<Reserve>) {
    forall m :: Since(drops, m) <= |reserves|
  }

  /** Every key holds exactly the peak of its minute since it was last dropped; and a key that
      outlives its minute is not dropped before the minute is over. */
  ghost predicate PeaksRight(keys: map<int, PeakKey>, reserves: seq<Reserve>, drops: map<int, nat>, window: int,
      now: int) {
    && (forall r :: r in reserves ==> r.level >= 1)
    && Bounded(drops, reserves)
    && (forall m :: Peak(keys, m) == PeakOf(reserves[Since(drops, m)..], m))
    && (OutlivesMinute(window) ==>
          && (forall m :: m in keys ==> keys[m].expireAt >= m + 2 * window)
          && (forall m :: m in drops ==> m + MINUTE_MS <= now))
  }

  lemma NoPeaks(window: int, now: int)
    ensures PeaksRight(map[], [], map[], window, now)
  {
  }

  lemma PeaksLater(keys: map<int, PeakKey>, reserves: seq<Reserve>, drops: map<int, nat>, window: int, now: int,
      later: int)
    requires PeaksRight(keys, reserves, drops, window, now) && now <= later
    ensures PeaksRight(keys, reserves, drops, window, later)
  {
  }

  function Dropped(keys: map<int, PeakKey>, kept: map<int, PeakKey>, drops: map<int, nat>, taken: nat): map<int, nat> {
    map m | m in drops.Keys + (keys.Keys - kept.Keys) :: if m in keys && m !in kept then taken else drops[m]
  }

  lemma PeaksExpire(keys: map<int, PeakKey>, reserves: seq<Reserve>, drops: map<int, nat>, window: int, now: int,
      minutes: set<int>)
    requires PeaksRight(keys, reserves, drops, window, now)
    ensures
      var kept := Remaining(keys, minutes, now);
      PeaksRight(kept, reserves, Dropped(keys, kept, drops, |reserves|), window, now)
  {
    var kept := Remaining(keys, minutes, now);
    var drops' := Dropped(keys, kept, drops, |reserves|);
    forall m ensures Since(drops', m) <= |reserves| && Peak(kept, m) == PeakOf(reserves[Since(drops', m)..], m) {
      assert Since(drops, m) <= |reserves| && Peak(keys, m) == PeakOf(reserves[Since(drops, m)..], m);
      assert reserves[|reserves|..] == [];
    }
  }

  lemma GrowsAt(keys: map<int, PeakKey>, since: seq<Reserve>, window: int, now: int, level: nat, m: int)
    requires Peak(keys, m) == PeakOf(since, m)
    ensures Peak(Grown(keys, now, level, window), m) == PeakOf(since + [Reserve(now, level)], m)
  {
    hide Minute;
    assert (since + [Reserve(now, level)])[..|since|] == since;
  }

  lemma PeaksGrow(keys: map<int, PeakKey>, reserves: seq<Reserve>, drops: map<int, nat>, window: int, now: int,
      level: nat)
    requires PeaksRight(keys, reserves, drops, window, now) && level >= 1
    ensures PeaksRight(Grown(keys, now, level, window), reserves + [Reserve(now, level)], drops, window, now)
  {
    hide Minute, PeakOf, Peak, Since;
    var r := Reserve(now, level);
    var all := reserves + [r];
    assert Minute(now) <= now;
    forall m ensures Since(drops, m) <= |all|
        && Peak(Grown(keys, now, level, window), m) == PeakOf(all[Since(drops, m)..], m) {
      assert Since(drops, m) <= |reserves| && Peak(keys, m) == PeakOf(reserves[Since(drops, m)..], m);
      assert all[Since(drops, m)..] == reserves[Since(drops, m)..] + [r];
      GrowsAt(keys, reserves[Since(drops, m)..], window, now, level, m);
    }
  }

  /** A reading of the current minute is its true peak if and only if no slot taken before the key
      was last dropped led higher than those taken since; and always if keys outlive their minute. */
  lemma PeakReadExactIff(keys: map<int, PeakKey>, reserves: seq<Reserve>, drops: map<int, nat>, window: int, now: int)
    requires PeaksRight(keys, reserves, drops, window, now)
    ensures
      var minute := Minute(now);
      var since := Since(drops, minute);
      && since <= |reserves|
      && (Peak(keys, minute) == PeakOf(reserves, minute)
          <==> PeakOf(reserves[..since], minute) <= PeakOf(reserves[since..], minute))
      && Peak(keys, minute) <= PeakOf(reserves, minute)
      && (OutlivesMinute(window) ==> Peak(keys, minute) == PeakOf(reserves, minute))
  {
    hide PeakOf;
    var minute := Minute(now);
    var since := Since(drops, minute);
    assert since <= |reserves| && Peak(keys, minute) == PeakOf(reserves[since..], minute);
    PeakOfBoth(reserves[..since], reserves[since..], minute);
    assert reserves[..since] + reserves[since..] == reserves;
    if OutlivesMinute(window) {
      assert since == 0;
      assert reserves[since..] == reserves;
    }
  }
}
