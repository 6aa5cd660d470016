/**
 Whole runs of the limiter, on the sliding-window log: any interleaving of attempts, releases,
 reports, reads, passing time and lost counters. RedisLimiter shows that every run of the Redis
 scripts is one of these; the second half adds the workers that hold the slots.
 */
module LimiterRuns {
  import opened SlidingWindow
  import opened RetryHints

  /** effective is whatever allowance the adaptive state gave that attempt. */
  datatype Event =
    | Elapse(ms: nat)
    | Attempt(args: AcquireArgs, effective: int)
    | GiveBack
    | Quiet
    | SlotsLost

  function Next(v: View, e: Event): View {
    match e
    case Elapse(ms) => v.(now := v.now + ms)
    case Attempt(a, effective) => Acquired(v, a, effective)
    case GiveBack => Released(v)
    case Quiet => v
    case SlotsLost => v.(inUse := 0)
  }

  /** The counter is only dropped once nothing has touched it for its whole TTL. */
  predicate Possible(v: View, e: Event) {
    e.SlotsLost? ==> v.slotsUntil <= v.now
  }

  ghost predicate Lawful(v: View, es: seq<Event>) {
    forall i :: 0 <= i < |es| ==> Possible(Replay(v, es[..i]), es[i])
  }

  function Replay(v: View, es: seq<Event>): View {
    if es == [] then v else Next(Replay(v, es[..|es| - 1]), es[|es| - 1])
  }

  lemma LawfulStep(v: View, es: seq<Event>, e: Event)
    requires Lawful(v, es) && Possible(Replay(v, es), e)
    ensures Lawful(v, es + [e]) && Replay(v, es + [e]) == Next(Replay(v, es), e)
  {
    var all := es + [e];
    assert all[..|es|] == es;
    forall i | 0 <= i < |all| ensures Possible(Replay(v, all[..i]), all[i]) {
      if i < |es| {
        assert all[..i] == es[..i];
      }
    }
  }

  ghost predicate FixedRpm(es: seq<Event>, limit: int) {
    forall i :: 0 <= i < |es| && es[i].Attempt? ==> es[i].args.rpmLimit == limit
  }

  ghost predicate FixedTpm(es: seq<Event>, limit: int) {
    forall i :: 0 <= i < |es| && es[i].Attempt? ==> es[i].args.tpmLimit == limit
  }

  /** Every attempt was given an allowance between one and the ceiling. */
  ghost predicate WithinCeiling(es: seq<Event>, ceiling: int) {
    forall i :: 0 <= i < |es| && es[i].Attempt? ==> 1 <= es[i].effective <= ceiling
  }

  lemma {:induction false} ClockCoversLog(v: View, es: seq<Event>)
    requires NotAfter(v.log, v.now)
    ensures NotAfter(Replay(v, es).log, Replay(v, es).now)
    ensures Replay(v, es).window == v.window
  {
    if es != [] {
      ClockCoversLog(v, es[..|es| - 1]);
    }
  }

  /** Sliding-window safety over whole runs: with a fixed positive request limit, no window
      anywhere in the history ever holds more admissions than the limit. */
  lemma {:induction false} RunsKeepRpmSafe(v: View, es: seq<Event>, limit: int)
    requires limit > 0 && FixedRpm(es, limit)
    requires NotAfter(v.log, v.now) && RpmSafe(v.log, v.window, limit)
    ensures RpmSafe(Replay(v, es).log, v.window, limit)
  {
    hide RpmSafe, Acquired, Released;
    if es != [] {
      var init, last := es[..|es| - 1], es[|es| - 1];
      RunsKeepRpmSafe(v, init, limit);
      ClockCoversLog(v, init);
      StepKeepsRpmSafe(Replay(v, init), last, limit);
    }
  }

  lemma StepKeepsRpmSafe(v: View, e: Event, limit: int)
    requires NotAfter(v.log, v.now) && RpmSafe(v.log, v.window, limit)
    requires e.Attempt? ==> e.args.rpmLimit == limit && limit > 0
    ensures RpmSafe(Next(v, e).log, v.window, limit)
  {
    if e.Attempt? {
      GrantKeepsRpmSafe(v, e.args, e.effective);
    }
  }

  /** The same for the token limit. */
  lemma {:induction false} RunsKeepTpmSafe(v: View, es: seq<Event>, limit: int)
    requires limit > 0 && FixedTpm(es, limit)
    requires NotAfter(v.log, v.now) && TpmSafe(v.log, v.window, limit)
    ensures TpmSafe(Replay(v, es).log, v.window, limit)
  {
    hide TpmSafe, Acquired, Released;
    if es != [] {
      var init, last := es[..|es| - 1], es[|es| - 1];
      RunsKeepTpmSafe(v, init, limit);
      ClockCoversLog(v, init);
      StepKeepsTpmSafe(Replay(v, init), last, limit);
    }
  }

  lemma StepKeepsTpmSafe(v: View, e: Event, limit: int)
    requires NotAfter(v.log, v.now) && TpmSafe(v.log, v.window, limit)
    requires e.Attempt? ==> e.args.tpmLimit == limit && limit > 0
    ensures TpmSafe(Next(v, e).log, v.window, limit)
  {
    if e.Attempt? {
      GrantKeepsTpmSafe(v, e.args, e.effective);
    }
  }

  /** With a fixed request limit the live count never exceeds it, so a request rejection always
      happens at exactly the limit: the case in which the retry hint is exact. */
  lemma RejectionHappensAtLimit(v: View, es: seq<Event>, limit: int)
    requires limit > 0 && FixedRpm(es, limit) && v.log == []
    requires !PassesRpm(Replay(v, es).log, v.window, Replay(v, es).now, limit)
    ensures |Live(Replay(v, es).log, Replay(v, es).now - v.window)| == limit
  {
    hide Replay, RpmSafe;
    assert RpmSafe(v.log, v.window, limit) by { EmptyIsSafe(v.window, limit); }
    RunsKeepRpmSafe(v, es, limit);
    ClockCoversLog(v, es);
    var w := Replay(v, es);
    SafeNow(w, limit);
  }

  function AtLimit(rpmLimit: int, request: string): Event {
    Attempt(AcquireArgs(rpmLimit, 0, 1, 0, request, false, false), 1)
  }

  /** A limit that drops below the live count makes the hint too early: two admissions at times 1
      and 5 under a limit of 2, then an attempt at time 10 under a limit of 1. */
  lemma LoweredLimitMakesHintEarly()
    ensures exists v: View, es: seq<Event>, a: AcquireArgs, ms: int ::
      && v.log == [] && Lawful(v, es)
      && Judge(Replay(v, es), a, 1) == ByRpm && HintRight(Replay(v, es), a, ByRpm, ms)
      && !EarliestRpm(Replay(v, es).log, v.window, Replay(v, es).now, Replay(v, es).now + ms, a.rpmLimit)
  {
    hide Replay, Lawful, Judge, OldestLive, EarliestRpm;
    var v := View(10, 300000, 1, [], 0, 1);
    var es := [AtLimit(2, "a"), Elapse(4), AtLimit(2, "b"), Elapse(5)];
    var a := AcquireArgs(1, 0, 1, 0, "c", false, false);
    var first, second := Admission(1, 0, "a"), Admission(5, 0, "b");
    ReplayFour(v, es);
    AdmittedAtLimit(v, "a");
    LiveOf(first, second);
    AdmittedAtLimit(v.(now := 5, log := [first]), "b");
    assert [] + [first] == [first] && [first] + [second] == [first, second];
    var end := v.(now := 10, log := [first, second]);
    assert Replay(v, es) == end;
    TooEarly(end, a, first, second);
    assert v.log == [] && HintRight(Replay(v, es), a, ByRpm, 1);
  }

  lemma ReplayFour(v: View, es: seq<Event>)
    requires |es| == 4 && forall e :: e in es ==> !e.SlotsLost?
    ensures Lawful(v, es) && Replay(v, es) == Next(Next(Next(Next(v, es[0]), es[1]), es[2]), es[3])
  {
    hide Next;
    assert es[..3][..2] == es[..2] && es[..2][..1] == es[..1] && es[..1][..0] == [];
    assert Replay(v, es[..1]) == Next(v, es[0]);
  }

  lemma AdmittedAtLimit(v: View, request: string)
    requires |Live(v.log, v.now - v.window)| + 1 <= 2
    ensures Next(v, AtLimit(2, request)) == v.(log := v.log + [Admission(v.now, 0, request)])
  {
    hide Live;
  }

  lemma TooEarly(end: View, a: AcquireArgs, first: Admission, second: Admission)
    requires end.log == [first, second] && first.time == 1 && second.time == 5
    requires end.window == 10 && end.now == 10 && a.rpmLimit == 1
    ensures Judge(end, a, 1) == ByRpm && HintRight(end, a, ByRpm, 1)
        && !EarliestRpm(end.log, end.window, end.now, end.now + 1, 1)
  {
    LiveOf(first, second);
    hide Live;
    assert Live(end.log, 0) == [first, second] && Live(end.log, 1) == [second];
  }

  lemma LiveOf(first: Admission, second: Admission)
    ensures forall c {:trigger Live([], c)} :: Live([], c) == []
    ensures forall c {:trigger Live([first], c)} :: Live([first], c) == if first.time > c then [first] else []
    ensures forall c {:trigger Live([first, second], c)} ::
              Live([first, second], c)
                  == (if first.time > c then [first] else []) + (if second.time > c then [second] else [])
  {
    assert [first, second][..1] == [first] && [first][..0] == [];
    forall c ensures Live([first], c) == if first.time > c then [first] else [] {
      assert Live([first][..0], c) == [];
    }
    forall c ensures Live([first, second], c)
        == (if first.time > c then [first] else []) + (if second.time > c then [second] else []) {
      assert Live([first, second][..1], c) == Live([first], c);
    }
  }

  lemma EmptyIsSafe(window: int, limit: int)
    requires limit >= 0
    ensures RpmSafe([], window, limit) && TpmSafe([], window, limit)
  {
  }

  lemma SafeNow(v: View, limit: int)
    requires NotAfter(v.log, v.now) && RpmSafe(v.log, v.window, limit)
    ensures |Live(v.log, v.now - v.window)| <= limit
  {
    WithinIsLive(v.log, v.now - v.window, v.now);
    assert |WindowAt(v.log, v.window, v.now)| <= limit;
  }

  /** A fixed ceiling bounds the counter in every run, expiry included. */
  lemma {:induction false} RunsKeepCeiling(v: View, es: seq<Event>, ceiling: int)
    requires WithinCeiling(es, ceiling) && v.inUse <= ceiling
    ensures Replay(v, es).inUse <= ceiling
  {
    if es != [] {
      RunsKeepCeiling(v, es[..|es| - 1], ceiling);
    }
  }

  // ---- how long the counter is kept ----

  /** A slot taken, or one given back while others stay counted. */
  predicate Touches(v: View, e: Event) {
    || (e.Attempt? && e.args.reserve && Judge(v, e.args, e.effective) == Granted)
    || (e.GiveBack? && v.inUse > 1)
  }

  /** After that the counter cannot be lost for its whole TTL, and can be from then on; nothing else
      prolongs it (a release that empties the counter deletes its key). */
  lemma TouchedIsKept(v: View, e: Event, ms: nat)
    ensures Touches(v, e) ==>
              Next(v, e).inUse > 0 && (Possible(Next(Next(v, e), Elapse(ms)), SlotsLost) <==> ms >= v.slotTtl)
    ensures !Touches(v, e) && !e.GiveBack? ==> Next(v, e).slotsUntil == v.slotsUntil
  {
    hide Judge;
  }

  function Elapsed(es: seq<Event>): nat {
    if es == [] then 0
    else Elapsed(es[..|es| - 1]) + if es[|es| - 1].Elapse? then es[|es| - 1].ms else 0
  }

  /** Whatever happens in between, the deadline does not come closer. */
  lemma {:induction false} DeadlineHolds(v: View, es: seq<Event>)
    requires v.slotsUntil <= v.now + v.slotTtl
    ensures Replay(v, es).now == v.now + Elapsed(es) && Replay(v, es).slotTtl == v.slotTtl
    ensures v.slotsUntil <= Replay(v, es).slotsUntil <= Replay(v, es).now + v.slotTtl
  {
    hide Judge;
    if es != [] {
      DeadlineHolds(v, es[..|es| - 1]);
    }
  }

  /** In every run, between a touch of the counter and its loss at least its TTL passes. */
  lemma LossComesAfterTtl(v: View, e: Event, es: seq<Event>)
    requires Touches(v, e) && Possible(Replay(Next(v, e), es), SlotsLost)
    ensures Elapsed(es) >= v.slotTtl
  {
    hide Judge;
    DeadlineHolds(Next(v, e), es);
  }

  // ---- workers ----

  type Worker = nat

  /** Environment events, and what a worker can do to the counter. A worker that crashes, or whose
      call ends without giving its slot back, leaks it. */
  datatype Action =
    | World(event: Event)
    | Begin(worker: Worker, args: AcquireArgs, effective: int)
    | Finish(worker: Worker)
    | Leak(worker: Worker)

  datatype Fleet = Fleet(view: View, holders: set<Worker>, leaked: nat) {
    /** Slots that somebody took and nobody gave back. */
    function Taken(): nat { |holders| + leaked }

    /** The counter counts each of them, and nothing else. */
    predicate Exact() { view.inUse == Taken() }
  }

  /** A worker begins when it holds nothing and finishes or leaks only while it holds a slot. */
  predicate Enabled(f: Fleet, a: Action) {
    match a
    case World(e) => (e.Elapse? || e.Quiet? || e.SlotsLost?) && Possible(f.view, e)
    case Begin(w, _, _) => w !in f.holders
    case Finish(w) => w in f.holders
    case Leak(w) => w in f.holders
  }

  function Act(f: Fleet, a: Action): Fleet {
    match a
    case World(e) => f.(view := Next(f.view, e))
    case Begin(w, args, effective) =>
      Fleet(Next(f.view, Attempt(args, effective)),
            if args.reserve && Judge(f.view, args, effective) == Granted then f.holders + {w} else f.holders,
            f.leaked)
    case Finish(w) => Fleet(Next(f.view, GiveBack), f.holders - {w}, f.leaked)
    case Leak(w) => Fleet(f.view, f.holders - {w}, f.leaked + 1)
  }

  function Perform(f: Fleet, acts: seq<Action>): Fleet {
    if acts == [] then f else Act(Perform(f, acts[..|acts| - 1]), acts[|acts| - 1])
  }

  ghost predicate Feasible(f: Fleet, acts: seq<Action>) {
    forall i :: 0 <= i < |acts| ==> Enabled(Perform(f, acts[..i]), acts[i])
  }

  lemma FeasiblePrefix(f: Fleet, acts: seq<Action>)
    requires Feasible(f, acts) && acts != []
    ensures Feasible(f, acts[..|acts| - 1])
    ensures Enabled(Perform(f, acts[..|acts| - 1]), acts[|acts| - 1])
  {
    var init := acts[..|acts| - 1];
    forall i | 0 <= i < |init| ensures Enabled(Perform(f, init[..i]), init[i]) {
      assert init[..i] == acts[..i];
    }
  }

  lemma FeasibleStep(f: Fleet, acts: seq<Action>, a: Action)
    requires Feasible(f, acts) && Enabled(Perform(f, acts), a)
    ensures Feasible(f, acts + [a]) && Perform(f, acts + [a]) == Act(Perform(f, acts), a)
  {
    hide Enabled, Act;
    var all := acts + [a];
    assert all[..|acts|] == acts;
    forall i | 0 <= i < |all| ensures Enabled(Perform(f, all[..i]), all[i]) {
      if i < |acts| {
        assert all[..i] == acts[..i];
      }
    }
  }

  // ---- when the counter is exact ----

  /** The counter key may not be dropped now: it is gone, or something touched it within its TTL. */
  predicate Alive(v: View) {
    v.inUse > 0 ==> v.now < v.slotsUntil
  }

  /** The counter is dropped while it counts slots. */
  predicate DropsSlots(f: Fleet, a: Action) {
    a == World(SlotsLost) && f.view.inUse > 0
  }

  lemma ActMovesTaken(f: Fleet, a: Action)
    requires Enabled(f, a)
    ensures Act(f, a).Taken() == f.Taken()
              + (if a.Begin? && a.args.reserve && Judge(f.view, a.args, a.effective) == Granted then 1 else 0)
              - (if a.Finish? then 1 else 0)
  {
    hide Judge;
  }

  lemma ActMovesInUse(f: Fleet, a: Action)
    requires Enabled(f, a)
    ensures Act(f, a).view.inUse
         == match a
            case World(e) => if e.SlotsLost? then 0 else f.view.inUse
            case Begin(_, args, effective) =>
              f.view.inUse + if args.reserve && Judge(f.view, args, effective) == Granted then 1 else 0
            case Finish(_) => if f.view.inUse == 0 then 0 else f.view.inUse - 1
            case Leak(_) => f.view.inUse
  {
    hide Judge;
  }

  /** One action keeps an exact counter exact if and only if it does not drop counted slots. */
  lemma ActKeepsExactIff(f: Fleet, a: Action)
    requires Enabled(f, a) && f.Exact()
    ensures Act(f, a).Exact() <==> !DropsSlots(f, a)
  {
    hide Judge, Act, Fleet.Taken;
    ActMovesTaken(f, a);
    ActMovesInUse(f, a);
  }

  /** From an exact counter, some possible action makes it wrong if and only if the counter is in
      use and nothing has touched it for its whole TTL. */
  lemma ExactnessAtRiskIff(f: Fleet)
    requires f.Exact()
    ensures (exists a :: Enabled(f, a) && !Act(f, a).Exact()) <==> !Alive(f.view)
  {
    hide Act;
    if exists a :: Enabled(f, a) && !Act(f, a).Exact() {
      var a :| Enabled(f, a) && !Act(f, a).Exact();
      ActKeepsExactIff(f, a);
    }
    if !Alive(f.view) {
      ActKeepsExactIff(f, World(SlotsLost));
      assert Enabled(f, World(SlotsLost));
    }
  }

  ghost predicate ExactThroughout(f: Fleet, acts: seq<Action>) {
    forall k :: 0 <= k <= |acts| ==> Perform(f, acts[..k]).Exact()
  }

  ghost predicate NeverDropsSlots(f: Fleet, acts: seq<Action>) {
    forall i :: 0 <= i < |acts| ==> !DropsSlots(Perform(f, acts[..i]), acts[i])
  }

  lemma PerformMore(f: Fleet, acts: seq<Action>, a: Action, k: nat)
    requires k <= |acts|
    ensures (acts + [a])[..k] == acts[..k] && (acts + [a])[..|acts| + 1] == acts + [a] && acts[..|acts|] == acts
    ensures Perform(f, acts + [a]) == Act(Perform(f, acts), a)
  {
    hide Act;
    assert (acts + [a])[..|acts|] == acts;
  }

  lemma ExactMore(f: Fleet, acts: seq<Action>, a: Action)
    ensures ExactThroughout(f, acts) ==> Perform(f, acts).Exact()
    ensures ExactThroughout(f, acts + [a]) <==> ExactThroughout(f, acts) && Act(Perform(f, acts), a).Exact()
  {
    hide Perform, Act;
    forall k | 0 <= k <= |acts| ensures Perform(f, (acts + [a])[..k]) == Perform(f, acts[..k]) {
      PerformMore(f, acts, a, k);
    }
    PerformMore(f, acts, a, 0);
    assert Perform(f, (acts + [a])[..|acts| + 1]) == Act(Perform(f, acts), a);
    assert acts[..|acts|] == acts;
  }

  lemma DropsMore(f: Fleet, acts: seq<Action>, a: Action)
    ensures NeverDropsSlots(f, acts + [a]) <==> NeverDropsSlots(f, acts) && !DropsSlots(Perform(f, acts), a)
  {
    hide Perform, Act, DropsSlots;
    var all := acts + [a];
    forall i | 0 <= i < |acts| ensures Perform(f, all[..i]) == Perform(f, acts[..i]) && all[i] == acts[i] {
      PerformMore(f, acts, a, i);
    }
    assert all[..|acts|] == acts && all[|acts|] == a;
    if NeverDropsSlots(f, all) {
      forall i | 0 <= i < |acts| ensures !DropsSlots(Perform(f, acts[..i]), acts[i]) {
        assert !DropsSlots(Perform(f, all[..i]), all[i]);
      }
    }
  }

  /** Over a whole run the counter is exact at every moment if and only if it is never dropped
      while it counts slots. */
  lemma {:induction false} CounterExactIff(f: Fleet, acts: seq<Action>)
    requires Feasible(f, acts) && f.Exact()
    ensures ExactThroughout(f, acts) <==> NeverDropsSlots(f, acts)
  {
    if acts != [] {
      hide Act, Enabled, DropsSlots, Perform, ExactThroughout, NeverDropsSlots;
      var init, last := acts[..|acts| - 1], acts[|acts| - 1];
      assert acts == init + [last];
      FeasiblePrefix(f, acts);
      CounterExactIff(f, init);
      PerformMore(f, init, last, 0);
      ExactMore(f, init, last);
      DropsMore(f, init, last);
      if ExactThroughout(f, init) {
        ActKeepsExactIff(Perform(f, init), last);
      }
    }
  }

  /** Whatever leaks and expires, the counter never claims more slots than were taken. */
  lemma {:induction false} CounterNeverExceedsTaken(f: Fleet, acts: seq<Action>)
    requires Feasible(f, acts) && f.view.inUse <= f.Taken()
    ensures Perform(f, acts).view.inUse <= Perform(f, acts).Taken()
  {
    hide Judge;
    if acts != [] {
      FeasiblePrefix(f, acts);
      CounterNeverExceedsTaken(f, acts[..|acts| - 1]);
      ActMovesTaken(Perform(f, acts[..|acts| - 1]), acts[|acts| - 1]);
    }
  }

  // ---- the ceiling ----

  ghost predicate BeginsWithin(acts: seq<Action>, ceiling: int) {
    forall i :: 0 <= i < |acts| && acts[i].Begin? ==> 1 <= acts[i].effective <= ceiling
  }

  lemma {:induction false} CounterKeepsCeiling(f: Fleet, acts: seq<Action>, ceiling: int)
    requires Feasible(f, acts) && BeginsWithin(acts, ceiling) && f.view.inUse <= ceiling
    ensures Perform(f, acts).view.inUse <= ceiling
  {
    if acts != [] {
      FeasiblePrefix(f, acts);
      CounterKeepsCeiling(f, acts[..|acts| - 1], ceiling);
    }
  }

  ghost predicate OnlyBegins(acts: seq<Action>) {
    forall i :: 0 <= i < |acts| ==> acts[i].Begin?
  }

  lemma {:induction false} BeginsKeepExact(f: Fleet, acts: seq<Action>)
    requires Feasible(f, acts) && OnlyBegins(acts) && f.Exact()
    ensures Perform(f, acts).Exact()
  {
    if acts != [] {
      FeasiblePrefix(f, acts);
      BeginsKeepExact(f, acts[..|acts| - 1]);
      ActKeepsExactIff(Perform(f, acts[..|acts| - 1]), acts[|acts| - 1]);
    }
  }

  function Unlimited(ceiling: int): AcquireArgs {
    AcquireArgs(0, 0, ceiling, 0, "", false, true)
  }

  /** As many workers as the counter has room for begin, and all are admitted. */
  lemma {:induction false} FillUp(f: Fleet, ceiling: int, n: nat) returns (acts: seq<Action>)
    requires f.view.inUse + n <= ceiling
    ensures Feasible(f, acts) && OnlyBegins(acts) && BeginsWithin(acts, ceiling)
    ensures Perform(f, acts).Taken() == f.Taken() + n && Perform(f, acts).view.inUse == f.view.inUse + n
  {
    if n == 0 {
      acts := [];
    } else {
      var before := FillUp(f, ceiling, n - 1);
      var g := Perform(f, before);
      var w := FreshWorker(g.holders);
      var a := Begin(w, Unlimited(ceiling), ceiling);
      FeasibleStep(f, before, a);
      ActMovesTaken(g, a);
      acts := before + [a];
    }
  }

  lemma {:induction false} FreshWorker(holders: set<Worker>) returns (w: Worker)
    ensures w !in holders && forall x :: x in holders ==> x < w
  {
    if holders == {} {
      w := 0;
    } else {
      var x :| x in holders;
      var v := FreshWorker(holders - {x});
      w := if v <= x then x + 1 else v;
      forall y | y in holders ensures y < w {
        assert y == x || y in holders - {x};
      }
    }
  }

  /** From a counter within the ceiling, further workers can take more slots than the ceiling if
      and only if the counter already counts fewer slots than are taken. */
  lemma CeilingAtRiskIff(f: Fleet, ceiling: int)
    requires f.view.inUse <= f.Taken() && f.view.inUse <= ceiling
    ensures (exists acts ::
               Feasible(f, acts) && OnlyBegins(acts) && BeginsWithin(acts, ceiling)
                   && Perform(f, acts).Taken() > ceiling)
       <==> f.view.inUse < f.Taken()
  {
    hide Act, Enabled, Feasible;
    if f.view.inUse < f.Taken() {
      var _ := FillUp(f, ceiling, ceiling - f.view.inUse);
    } else {
      forall acts | Feasible(f, acts) && OnlyBegins(acts) && BeginsWithin(acts, ceiling)
        ensures Perform(f, acts).Taken() <= ceiling
      {
        BeginsKeepExact(f, acts);
        CounterKeepsCeiling(f, acts, ceiling);
      }
    }
  }

  /** A call longer than the TTL with no other traffic does break that bound: the counter is
      dropped while the slot is held, and a second worker gets the only slot. */
  lemma ExpiryCanOveradmit()
    ensures exists acts: seq<Action>, v: View ::
      v.inUse == 0 && v.log == [] && BeginsWithin(acts, 1) && Feasible(Fleet(v, {}, 0), acts)
      && |Perform(Fleet(v, {}, 0), acts).holders| == 2
  {
    var v := View(60000, 300000, 0, [], 0, 0);
    var f := Fleet(v, {}, 0);
    var a, b := AcquireArgs(0, 0, 1, 0, "a", false, true), AcquireArgs(0, 0, 1, 0, "b", false, true);
    var acts := [Begin(0, a, 1), World(Elapse(300000)), World(SlotsLost), Begin(1, b, 1)];
    var f1 := Act(f, acts[0]);
    var f2 := Act(f1, acts[1]);
    var f3 := Act(f2, acts[2]);
    assert Perform(f, acts[..0]) == f;
    assert Perform(f, acts[..1]) == f1 by { assert acts[..1][..0] == []; }
    assert Perform(f, acts[..2]) == f2 by { assert acts[..2][..1] == acts[..1]; }
    assert Perform(f, acts[..3]) == f3 by { assert acts[..3][..2] == acts[..2]; }
    assert Perform(f, acts) == Act(f3, acts[3]);
    assert f1.holders == {0} && f1.view.inUse == 1 && f3.view.inUse == 0;
    assert Perform(f, acts).holders == {0, 1};
    assert Feasible(f, acts);
    assert v.inUse == 0 && v.log == [] && BeginsWithin(acts, 1);
  }
}
