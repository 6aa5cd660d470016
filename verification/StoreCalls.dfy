/**
 Calls of invokeLLM on the Redis keys themselves: each step of a call that touches the limiter is
 the script it sends. What the counter key holds is then accounted for call by call.
 */
module StoreCalls {
  import opened Wrappers
  import opened SlidingWindow
  import opened LimiterRuns
  import opened WorkerCalls
  import opened RedisStore
  import opened RedisLimiter
  import opened RetryHints
  import opened ConcurrencyPeak
  import opened EffectiveConcurrency
  import opened Adaptive
  import InvokeLlm

  /** What happens next: something outside the calls, or something to the call of one worker.
      `request` is what an acquire step sends (each attempt under its own id: a rejected attempt
      leaves no trace of its id), latency and tokens are what a success report sends. */
  datatype CallMove =
    | Outside(command: Command)
    | Launch(worker: Worker, args: InvokeLlm.CallArgs, world: InvokeLlm.World)
    | Continue(worker: Worker, request: AcquireArgs, latencyMs: int, tokens: int)
    | Close(worker: Worker)
    | Kill(worker: Worker)

  /** Only calls acquire and release. */
  predicate Proper(m: CallMove) {
    m.Outside? ==> !m.command.SendAcquire? && !m.command.SendRelease?
  }

  ghost predicate FreshMoves(log: seq<Admission>, ms: seq<CallMove>) {
    && (forall i :: 0 <= i < |ms| && ms[i].Continue? ==> Absent(log, ms[i].request.request))
    && (forall i, j :: 0 <= i < j < |ms| && ms[i].Continue? && ms[j].Continue? ==>
          ms[i].request.request != ms[j].request.request)
  }

  /** The log gained at most the request of this move. */
  ghost predicate GainsOwn(before: seq<Admission>, m: CallMove, after: seq<Admission>) {
    || after == before
    || (m.Continue? && exists e: Admission :: e.request == m.request.request && after == before + [e])
  }

  /** The move of the system that a move on the store carries out. */
  ghost predicate Carries(t: System, m: CallMove, mv: Move) {
    match m
    case Outside(c) => mv.Environment? && StandsFor(c, mv.event)
        && (c.DropExpired? ==> mv.event == ExpiryOf(t.view, c.keys))
    case Launch(w, args, world) => mv == if w in t.calls then Environment(Quiet) else Start(w, args, world)
    case Continue(w, request, _, _) =>
      if w in t.calls && t.calls[w].at < |t.calls[w].Trace()|
      then CarriesStep(t.view, w, t.calls[w].Trace()[t.calls[w].at], request, mv)
      else mv == Environment(Quiet)
    case Close(w) =>
      mv == if w in t.calls && t.calls[w].at == |t.calls[w].Trace()| then Return(w) else Environment(Quiet)
    case Kill(w) => mv == if w in t.calls then Die(w) else Environment(Quiet)
  }

  /** An acquire step is taken exactly when the script grants what the call sends, under the allowance
      of that moment; any other step is simply taken. */
  ghost predicate CarriesStep(v: View, w: Worker, e: InvokeLlm.Effect, request: AcquireArgs, mv: Move) {
    match e
    case Admitted(reserved) =>
      var sent := request.(reserve := reserved);
      exists effective :: CarriesAcquire(v, w, sent, effective, mv)
    case _ => mv == Step(w, request, 0)
  }

  ghost predicate CarriesAcquire(v: View, w: Worker, sent: AcquireArgs, effective: int, mv: Move) {
    && StandsFor(SendAcquire(sent), Attempt(sent, effective))
    && mv == if Judge(v, sent, effective) == Granted then Step(w, sent, effective) else Environment(Quiet)
  }

  /** What a move does to the stored averages and factor: a step of a call that reports changes them
      by its report, and otherwise only commands from outside do. */
  ghost predicate Learns(t: System, m: CallMove, before: Option<Hash>, after: Option<Hash>, tuning: Tuning) {
    match m
    case Outside(c) => HashAfter(c, before, after, tuning)
    case Continue(w, _, latencyMs, tokens) =>
      if w in t.calls && t.calls[w].at < |t.calls[w].Trace()| then
        (match t.calls[w].Trace()[t.calls[w].at]
         case ReportSuccess => after == Some(Adaptive.Reported(before, Adaptive.Success(latencyMs, tokens), tuning))
         case ReportThrottle => after == Some(Adaptive.Reported(before, Adaptive.UpstreamThrottle, tuning))
         case _ => after == before)
      else after == before
    case _ => after == before
  }

  /** An acquire step: the call goes on if the script grants it; otherwise it polls again later. */
  method AcquireStep(s: Store, request: AcquireArgs) returns (granted: bool, effective: int)
    requires s.Valid() && s.Unseen(request.request)
    modifies s
    ensures s.Valid() && granted == (Judge(old(s.View()), request, effective) == Granted)
    ensures s.View() == if granted then Acquired(old(s.View()), request, effective) else old(s.View())
    ensures StandsFor(SendAcquire(request), Attempt(request, effective)) && s.Fields() == old(s.Fields())
    ensures s.log == old(s.log) || exists e: Admission :: e.request == request.request && s.log == old(s.log) + [e]
  {
    hide Live, Judge, Backs, NotAfter, Image, Adaptive.Reported, HintRight, PeaksRight, Grown, Compute;
    ComputeInRange(s.Fields(), request.rpmLimit, request.tpmLimit, request.ceiling, request.tokens,
                   s.settings.tuning.defaultLatency);
    var r := s.Acquire(request);
    granted, effective := r.verdict == Granted, r.effective;
    assert s.log == s.View().log;
  }

  /** One step of a running call, on the store. */
  method ContinueOn(s: Store, calls: map<Worker, Running>, m: CallMove, ghost t: System)
    returns (next: map<Worker, Running>, ghost mv: Move)
    requires s.Valid() && t.Valid() && t.view == s.View() && t.calls == calls
    requires m.Continue? && s.Unseen(m.request.request)
    modifies s
    ensures s.Valid() && Legal(t, mv) && Moved(t, mv).view == s.View() && Moved(t, mv).calls == next
    ensures Carries(t, m, mv) && GainsOwn(old(s.log), m, s.log)
    ensures Learns(t, m, old(s.Fields()), s.Fields(), s.settings.tuning)
  {
    hide Live, Judge, Backs, NotAfter, Image, InvokeLlm.Trace, Adaptive.Reported;
    var w := m.worker;
    next, mv := calls, Environment(Quiet);
    if w !in calls || calls[w].at >= |calls[w].Trace()| {
      return;
    }
    var e := calls[w].Trace()[calls[w].at];
    var after := calls[w].(at := calls[w].at + 1);
    match e {
      case Admitted(reserved) =>
        var request := m.request.(reserve := reserved);
        var granted, effective := AcquireStep(s, request);
        if granted {
          next, mv := calls[w := after], Step(w, request, effective);
        }
        assert CarriesAcquire(t.view, w, request, effective, mv);
        return;
      case Release(ran) =>
        if ran {
          var _ := s.Release();
        }
      case ReportSuccess =>
        var _ := s.Report(Adaptive.Success(m.latencyMs, m.tokens));
      case ReportThrottle =>
        var _ := s.Report(Adaptive.UpstreamThrottle);
      case _ =>
    }
    next, mv := calls[w := after], Step(w, m.request, 0);
  }

  /** One move on the store is one move of the system, and only an expiry that empties the counter
      key is a loss of slots. */
  method Apply(s: Store, calls: map<Worker, Running>, m: CallMove, ghost t: System)
    returns (next: map<Worker, Running>, ghost mv: Move)
    requires s.Valid() && t.Valid() && t.view == s.View() && t.calls == calls
    requires Proper(m) && (m.Continue? ==> s.Unseen(m.request.request))
    modifies s
    ensures s.Valid() && Legal(t, mv) && Moved(t, mv).view == s.View() && Moved(t, mv).calls == next
    ensures Carries(t, m, mv) && Learns(t, m, old(s.Fields()), s.Fields(), s.settings.tuning)
    ensures mv == Environment(SlotsLost) <==> DropsCounted(m, old(s.InUse()), s.InUse())
    ensures GainsOwn(old(s.log), m, s.log)
  {
    hide Live, Judge, Backs, NotAfter, Image, InvokeLlm.Trace, HashAfter;
    next, mv := calls, Environment(Quiet);
    match m
    case Outside(c) =>
      ghost var e := Send(s, c);
      mv := Environment(e);
      assert s.log == s.View().log;
    case Launch(w, args, world) =>
      if w !in calls {
        next, mv := calls[w := Running(args, world, 0)], Start(w, args, world);
      }
    case Continue(_, _, _, _) =>
      next, mv := ContinueOn(s, calls, m, t);
    case Close(w) =>
      if w in calls && calls[w].at == |calls[w].Trace()| {
        next, mv := calls - {w}, Return(w);
      }
    case Kill(w) =>
      if w in calls {
        next, mv := calls - {w}, Die(w);
      }
  }

  lemma FreshMovesStep(log: seq<Admission>, m: CallMove, rest: seq<CallMove>, after: seq<Admission>)
    requires FreshMoves(log, [m] + rest) && GainsOwn(log, m, after)
    ensures FreshMoves(after, rest)
  {
    var all := [m] + rest;
    assert all[0] == m && forall i :: 0 <= i < |rest| ==> all[i + 1] == rest[i];
    forall i | 0 <= i < |rest| && rest[i].Continue? ensures Absent(after, rest[i].request.request) {
      assert Absent(log, all[i + 1].request.request);
    }
    forall i, j | 0 <= i < j < |rest| && rest[i].Continue? && rest[j].Continue?
      ensures rest[i].request.request != rest[j].request.request
    {
      assert all[i + 1].request.request != all[j + 1].request.request;
    }
  }

  lemma TrailExtends(trail: seq<System>, moves: seq<Move>, mv: Move)
    requires Interleaving(trail, moves) && trail[|moves|].Valid() && Legal(trail[|moves|], mv)
    ensures Interleaving(trail + [Moved(trail[|moves|], mv)], moves + [mv]) && Moved(trail[|moves|], mv).Valid()
  {
    hide Legal, Moved;
    MoveRefines(trail[|moves|], mv);
    var trail', moves' := trail + [Moved(trail[|moves|], mv)], moves + [mv];
    forall i | 0 <= i < |moves'| ensures Follows(trail'[i], moves'[i], trail'[i + 1]) {
      if i < |moves| {
        assert Follows(trail[i], moves[i], trail[i + 1]);
      }
    }
  }

  /** An expiry emptied the counter key while it counted slots. */
  predicate DropsCounted(m: CallMove, before: int, after: int) {
    m.Outside? && m.command.DropExpired? && after != before
  }

  /** levels, trail and moves tell the first |moves| moves of a run. */
  ghost predicate Tells(ms: seq<CallMove>, levels: seq<int>, trail: seq<System>, moves: seq<Move>) {
    && |levels| == |trail| == |moves| + 1 && |moves| <= |ms|
    && Interleaving(trail, moves) && trail[|moves|].Valid()
    && (forall k :: 0 <= k < |levels| ==> levels[k] == trail[k].view.inUse)
    && (forall k :: 0 <= k < |moves| ==> SameLoss(ms[k], moves[k], levels[k], levels[k + 1]))
    && (forall k :: 0 <= k < |moves| ==> Carries(trail[k], ms[k], moves[k]))
  }

  ghost predicate SameLoss(m: CallMove, mv: Move, before: int, after: int) {
    (mv == Environment(SlotsLost) && before > 0) <==> DropsCounted(m, before, after)
  }

  lemma TellsMore(ms: seq<CallMove>, levels: seq<int>, trail: seq<System>, moves: seq<Move>, mv: Move)
    requires Tells(ms, levels, trail, moves) && |moves| < |ms| && Legal(trail[|moves|], mv)
    requires Carries(trail[|moves|], ms[|moves|], mv)
    requires var t := Moved(trail[|moves|], mv);
             mv == Environment(SlotsLost) <==> DropsCounted(ms[|moves|], levels[|moves|], t.view.inUse)
    ensures
      var t := Moved(trail[|moves|], mv);
      t.Valid() && Tells(ms, levels + [t.view.inUse], trail + [t], moves + [mv])
  {
    hide Legal, Moved, Interleaving, Carries;
    TrailExtends(trail, moves, mv);
    if mv == Environment(SlotsLost) {
      LossEmpties(trail[|moves|]);
    }
  }

  /** For a run that starts idle, the levels are right throughout if and only if nothing counted
      is dropped. */
  lemma LevelsRightIff(ms: seq<CallMove>, levels: seq<int>, trail: seq<System>, moves: seq<Move>)
    requires Tells(ms, levels, trail, moves) && |moves| == |ms| && Idle(trail[0])
    ensures (forall k :: 0 <= k <= |ms| ==> LevelRight(trail[k], levels[k]))
       <==> (forall i :: 0 <= i < |ms| ==> !DropsCounted(ms[i], levels[i], levels[i + 1]))
  {
    hide Interleaving, LosesSlots, DropsCounted, Accounted, LevelRight, Carries;
    SlotsAccountedForIff(trail, moves);
    forall i | 0 <= i < |ms| ensures LosesSlots(trail[i], moves[i]) <==> DropsCounted(ms[i], levels[i], levels[i + 1]) {
      assert SameLoss(ms[i], moves[i], levels[i], levels[i + 1]);
      LossIs(trail[i], moves[i]);
    }
    forall k | 0 <= k <= |ms| ensures Accounted(trail[k]) <==> LevelRight(trail[k], levels[k]) {
      AccountedIs(trail[k]);
    }
    assert (forall k :: 0 <= k <= |ms| ==> LevelRight(trail[k], levels[k]))
        <==> (forall k :: 0 <= k <= |ms| ==> Accounted(trail[k]));
    if forall i :: 0 <= i < |ms| ==> !DropsCounted(ms[i], levels[i], levels[i + 1]) {
      forall i | 0 <= i < |ms| ensures !LosesSlots(trail[i], moves[i]) {
        assert !DropsCounted(ms[i], levels[i], levels[i + 1]);
      }
    }
    if forall i :: 0 <= i < |ms| ==> !LosesSlots(trail[i], moves[i]) {
      forall i | 0 <= i < |ms| ensures !DropsCounted(ms[i], levels[i], levels[i + 1]) {
        assert !LosesSlots(trail[i], moves[i]);
      }
    }
  }

  lemma LossIs(t: System, mv: Move)
    ensures LosesSlots(t, mv) <==> mv == Environment(SlotsLost) && t.view.inUse > 0
  {
  }

  lemma AccountedIs(t: System)
    ensures Accounted(t) <==> LevelRight(t, t.view.inUse)
  {
  }

  /** The counter key holds the calls that hold a slot plus the leaked slots. */
  ghost predicate LevelRight(t: System, level: int) {
    t.Valid() && level == |t.Holders()| + t.leaked
  }

  /** Any interleaving of calls, scripts, time and expiry on a store whose counter starts at zero.
      The system follows the moves one by one, and levels[k], what the counter key holds after k of
      them, is at every moment the calls that hold a slot plus the leaked slots, if and only if no
      expiry ever drops a counted slot. hashes[k] is the adaptive state after k of them. */
  method Drive(s: Store, ms: seq<CallMove>)
    returns (levels: seq<int>, ghost trail: seq<System>, ghost moves: seq<Move>, ghost hashes: seq<Option<Hash>>)
    requires s.Valid() && s.InUse() == 0 && FreshMoves(s.log, ms) && forall i :: 0 <= i < |ms| ==> Proper(ms[i])
    modifies s
    ensures s.Valid() && |levels| == |ms| + 1 && levels[|ms|] == s.InUse()
    ensures |moves| == |ms| && Interleaving(trail, moves) && Idle(trail[0])
    ensures trail[0].view == old(s.View()) && trail[|ms|].view == s.View()
    ensures forall k :: 0 <= k <= |ms| ==> levels[k] == trail[k].view.inUse
    ensures forall k :: 0 <= k < |ms| ==> Carries(trail[k], ms[k], moves[k])
    ensures |hashes| == |ms| + 1 && hashes[0] == old(s.Fields()) && hashes[|ms|] == s.Fields()
    ensures forall k :: 0 <= k < |ms| ==> Learns(trail[k], ms[k], hashes[k], hashes[k + 1], s.settings.tuning)
    ensures (forall k :: 0 <= k <= |ms| ==> LevelRight(trail[k], levels[k]))
       <==> (forall i :: 0 <= i < |ms| ==> !DropsCounted(ms[i], levels[i], levels[i + 1]))
  {
    hide Live, Backs, NotAfter, Image, Legal, Moved, Interleaving, FreshMoves, GainsOwn, LevelRight, Judge,
      DropsCounted, Carries, Learns;
    var calls: map<Worker, Running> := map[];
    levels := [s.InUse()];
    trail, moves, hashes := [System(s.View(), map[], 0)], [], [s.Fields()];
    TellsNothing(ms, trail[0]);
    assert ms[0..] == ms;
    for i := 0 to |ms|
      invariant s.Valid() && FreshMoves(s.log, ms[i..])
      invariant |moves| == i && Tells(ms, levels, trail, moves)
      invariant trail[0] == System(old(s.View()), map[], 0)
      invariant trail[i].view == s.View() && trail[i].calls == calls
      invariant |hashes| == i + 1 && hashes[0] == old(s.Fields()) && hashes[i] == s.Fields()
      invariant forall k :: 0 <= k < i ==> Learns(trail[k], ms[k], hashes[k], hashes[k + 1], s.settings.tuning)
    {
      ghost var t := trail[i];
      ghost var mv;
      calls, mv := ApplyFresh(s, calls, ms[i], ms[i + 1..], ms[i..], t);
      TellsMore(ms, levels, trail, moves, mv);
      levels := levels + [s.InUse()];
      trail, moves, hashes := trail + [Moved(t, mv)], moves + [mv], hashes + [s.Fields()];
    }
    LevelsRightIff(ms, levels, trail, moves);
  }

  /** Apply, for the first of the moves still to come. */
  method ApplyFresh(s: Store, calls: map<Worker, Running>, m: CallMove, ghost rest: seq<CallMove>,
      ghost all: seq<CallMove>, ghost t: System)
    returns (next: map<Worker, Running>, ghost mv: Move)
    requires s.Valid() && t.Valid() && t.view == s.View() && t.calls == calls
    requires Proper(m) && all == [m] + rest && FreshMoves(s.log, all)
    modifies s
    ensures s.Valid() && FreshMoves(s.log, rest)
    ensures Legal(t, mv) && Moved(t, mv).view == s.View() && Moved(t, mv).calls == next
    ensures Carries(t, m, mv) && Learns(t, m, old(s.Fields()), s.Fields(), s.settings.tuning)
    ensures mv == Environment(SlotsLost) <==> DropsCounted(m, old(s.InUse()), s.InUse())
  {
    hide Live, Backs, NotAfter, Image, Legal, Moved, FreshMoves, GainsOwn, Carries, Learns;
    FreshNow(s.log, m, rest);
    ghost var log := s.log;
    next, mv := Apply(s, calls, m, t);
    FreshMovesStep(log, m, rest, s.log);
  }

  lemma TellsNothing(ms: seq<CallMove>, t: System)
    requires t.Valid()
    ensures Tells(ms, [t.view.inUse], [t], [])
  {
  }

  lemma FreshNow(log: seq<Admission>, m: CallMove, rest: seq<CallMove>)
    requires FreshMoves(log, [m] + rest)
    ensures m.Continue? ==> Absent(log, m.request.request)
  {
    assert ([m] + rest)[0] == m;
  }

  lemma LossEmpties(t: System)
    requires t.Valid() && Legal(t, Environment(SlotsLost))
    ensures Moved(t, Environment(SlotsLost)).view.inUse == 0
  {
  }
}
