/**
 Workers that run invokeLLM against one limiter key. Each running call is at some index of the
 trace that the call produces, and the steps of all calls interleave with each other, with the
 clock and with lost counters in any order.
 */
module WorkerCalls {
  import opened SlidingWindow
  import opened LimiterRuns
  import InvokeLlm

  /** A call that has done the first `at` steps of its trace. */
  datatype Running = Running(args: InvokeLlm.CallArgs, world: InvokeLlm.World, at: nat) {
    function Trace(): seq<InvokeLlm.Effect> { InvokeLlm.Trace(args, world) }
    predicate Within() { at <= |Trace()| }

    /** The counter counts a slot for what this call has done so far. */
    predicate Holds()
      requires Within()
    {
      InvokeLlm.SlotsHeld(Trace()[..at]) > 0
    }
  }

  datatype System = System(view: View, calls: map<Worker, Running>, leaked: nat) {
    ghost predicate Valid() { forall w :: w in calls ==> calls[w].Within() }
    ghost function Holders(): set<Worker>
      requires Valid()
    {
      set w | w in calls && calls[w].Holds()
    }
  }

  /** request and effective say which admission a step is when its effect is one. */
  datatype Move =
    | Environment(event: Event)
    | Start(worker: Worker, args: InvokeLlm.CallArgs, world: InvokeLlm.World)
    | Step(worker: Worker, request: AcquireArgs, effective: int)
    | Return(worker: Worker)
    | Die(worker: Worker)

  /** The only thing a call asks of the store is that its admissions are ones the script grants. */
  ghost predicate Legal(s: System, m: Move)
    requires s.Valid()
  {
    match m
    case Environment(e) => (e.Elapse? || e.Quiet? || e.SlotsLost?) && Possible(s.view, e)
    case Start(w, _, _) => w !in s.calls
    case Step(w, request, effective) =>
      && w in s.calls && s.calls[w].at < |s.calls[w].Trace()|
      && var e := s.calls[w].Trace()[s.calls[w].at];
         (e.Admitted? ==> request.reserve == e.reserved && Judge(s.view, request, effective) == Granted)
    case Return(w) => w in s.calls && s.calls[w].at == |s.calls[w].Trace()|
    case Die(w) => w in s.calls
  }

  /** What one step of a call does to the limiter. */
  function Effected(v: View, e: InvokeLlm.Effect, request: AcquireArgs, effective: int): View {
    match e
    case Admitted(_) => Acquired(v, request, effective)
    case Release(ran) => if ran then Released(v) else v
    case _ => v
  }

  /** A call that ends while the counter still counts its slot leaks it. */
  ghost function Ended(s: System, w: Worker): System
    requires s.Valid() && w in s.calls
  {
    System(s.view, s.calls - {w}, if s.calls[w].Holds() then s.leaked + 1 else s.leaked)
  }

  ghost function Moved(s: System, m: Move): System
    requires s.Valid() && Legal(s, m)
  {
    match m
    case Environment(e) => s.(view := Next(s.view, e))
    case Start(w, args, world) => s.(calls := s.calls[w := Running(args, world, 0)])
    case Step(w, request, effective) =>
      var r := s.calls[w];
      System(Effected(s.view, r.Trace()[r.at], request, effective), s.calls[w := r.(at := r.at + 1)], s.leaked)
    case Return(w) => Ended(s, w)
    case Die(w) => Ended(s, w)
  }

  // ---- every system is a fleet, every move an action ----

  ghost function FleetOf(s: System): Fleet
    requires s.Valid()
  {
    Fleet(s.view, s.Holders(), s.leaked)
  }

  ghost function ActionOf(s: System, m: Move): Action
    requires s.Valid() && Legal(s, m)
  {
    match m
    case Environment(e) => World(e)
    case Start(_, _, _) => World(Quiet)
    case Step(w, request, effective) =>
      (match s.calls[w].Trace()[s.calls[w].at]
       case Admitted(_) => Begin(w, request, effective)
       case Release(ran) => if ran then Finish(w) else World(Quiet)
       case _ => World(Quiet))
    case Return(w) => if s.calls[w].Holds() then Leak(w) else World(Quiet)
    case Die(w) => if s.calls[w].Holds() then Leak(w) else World(Quiet)
  }

  /** One step of a call moves its slot count by the step's own share. */
  lemma HeldByStep(r: Running)
    requires r.at < |r.Trace()|
    ensures InvokeLlm.SlotsHeld(r.Trace()[..r.at + 1])
        == InvokeLlm.SlotsHeld(r.Trace()[..r.at]) + InvokeLlm.Delta(r.Trace()[r.at])
    ensures 0 <= InvokeLlm.SlotsHeld(r.Trace()[..r.at]) <= 1 && 0 <= InvokeLlm.SlotsHeld(r.Trace()[..r.at + 1]) <= 1
    ensures r.Trace()[r.at].Admitted? ==> !r.Holds()
    ensures r.Trace()[r.at].Release? ==> r.Holds()
  {
    hide InvokeLlm.Trace;
    InvokeLlm.SlotDiscipline(r.args, r.world, r.at);
    InvokeLlm.SlotDiscipline(r.args, r.world, r.at + 1);
    assert r.Trace()[..r.at + 1][..r.at] == r.Trace()[..r.at];
  }

  lemma StepRefines(s: System, w: Worker, request: AcquireArgs, effective: int)
    requires s.Valid() && Legal(s, Step(w, request, effective))
    ensures Moved(s, Step(w, request, effective)).Valid()
    ensures Enabled(FleetOf(s), ActionOf(s, Step(w, request, effective)))
    ensures FleetOf(Moved(s, Step(w, request, effective))) == Act(FleetOf(s), ActionOf(s, Step(w, request, effective)))
  {
    hide InvokeLlm.Trace, InvokeLlm.SlotsHeld, Judge;
    var m := Step(w, request, effective);
    var r, r' := s.calls[w], s.calls[w].(at := s.calls[w].at + 1);
    HeldByStep(r);
    var t := Moved(s, m);
    assert t.calls[w] == r' && forall x :: x in s.calls && x != w ==> t.calls[x] == s.calls[x];
    assert t.Holders() == if r'.Holds() then s.Holders() + {w} else s.Holders() - {w};
    assert r.Holds() <==> w in s.Holders();
  }

  lemma EndRefines(s: System, w: Worker)
    requires s.Valid() && w in s.calls
    ensures Ended(s, w).Valid()
    ensures Ended(s, w).Holders() == s.Holders() - {w}
    ensures s.calls[w].Holds() <==> w in s.Holders()
  {
    hide InvokeLlm.Trace, InvokeLlm.SlotsHeld;
  }

  lemma MoveRefines(s: System, m: Move)
    requires s.Valid() && Legal(s, m)
    ensures Moved(s, m).Valid()
    ensures Enabled(FleetOf(s), ActionOf(s, m))
    ensures FleetOf(Moved(s, m)) == Act(FleetOf(s), ActionOf(s, m))
  {
    hide InvokeLlm.Trace, InvokeLlm.SlotsHeld, Judge;
    match m
    case Environment(e) =>
      assert Moved(s, m).Holders() == s.Holders();
    case Start(w, args, world) =>
      NothingHeldYet(args, world);
      assert Moved(s, m).Holders() == s.Holders();
    case Step(w, request, effective) =>
      StepRefines(s, w, request, effective);
    case Return(w) =>
      EndRefines(s, w);
    case Die(w) =>
      EndRefines(s, w);
  }

  lemma NothingHeldYet(args: InvokeLlm.CallArgs, world: InvokeLlm.World)
    ensures Running(args, world, 0).Within() && !Running(args, world, 0).Holds()
  {
    hide InvokeLlm.Trace;
    assert InvokeLlm.Trace(args, world)[..0] == [];
  }

  // ---- whole runs ----

  /** Any interleaving: trail[k] is the system after the first k moves. */
  ghost predicate Interleaving(trail: seq<System>, ms: seq<Move>) {
    && |trail| == |ms| + 1
    && forall i :: 0 <= i < |ms| ==> Follows(trail[i], ms[i], trail[i + 1])
  }

  ghost predicate Follows(s: System, m: Move, t: System) {
    s.Valid() && Legal(s, m) && t == Moved(s, m)
  }

  predicate Idle(s: System) {
    s.calls == map[] && s.leaked == 0 && s.view.inUse == 0
  }

  ghost predicate AsFleet(trail: seq<System>, ms: seq<Move>, acts: seq<Action>) {
    && |trail| == |ms| + 1 && |acts| == |ms|
    && (forall k :: 0 <= k <= |ms| ==> Mirrors(trail, acts, k))
    && (forall i :: 0 <= i < |ms| ==> Stands(trail[i], ms[i], acts[i]))
  }

  ghost predicate Stands(s: System, m: Move, a: Action) {
    s.Valid() && Legal(s, m) && a == ActionOf(s, m)
  }

  ghost predicate Mirrors(trail: seq<System>, acts: seq<Action>, k: nat)
    requires k < |trail| && k <= |acts|
    ensures Mirrors(trail, acts, k) ==> trail[k].Valid() && trail[0].Valid()
  {
    trail[k].Valid() && trail[0].Valid() && FleetOf(trail[k]) == Perform(FleetOf(trail[0]), acts[..k])
  }

  lemma FleetExtends(trail: seq<System>, ms: seq<Move>, acts: seq<Action>, t: System, m: Move, a: Action)
    requires AsFleet(trail, ms, acts) && Stands(trail[|ms|], m, a) && t.Valid()
    requires FleetOf(t) == Act(FleetOf(trail[|ms|]), a)
    ensures AsFleet(trail + [t], ms + [m], acts + [a])
  {
    hide Stands, FleetOf, Act;
    var trail', acts' := trail + [t], acts + [a];
    assert acts[..|acts|] == acts && acts'[..|acts'|] == acts' && acts'[..|acts|] == acts;
    forall k | 0 <= k <= |ms| + 1 ensures Mirrors(trail', acts', k) {
      assert Mirrors(trail, acts, if k <= |ms| then k else |ms|);
      if k <= |ms| {
        assert acts'[..k] == acts[..k];
      }
    }
  }

  /** Every interleaving of calls keeps the worker discipline that the counter bounds rest on. */
  lemma {:induction false} InterleavingsAreFeasible(trail: seq<System>, ms: seq<Move>) returns (acts: seq<Action>)
    requires Interleaving(trail, ms) && trail[0].Valid()
    ensures AsFleet(trail, ms, acts) && Feasible(FleetOf(trail[0]), acts)
  {
    hide Legal, Moved, FleetOf, ActionOf, Feasible, Enabled, Act;
    if ms == [] {
      acts := [];
      NothingDone(FleetOf(trail[0]));
      assert Mirrors(trail, acts, 0);
    } else {
      var n := |ms| - 1;
      var init, before := trail[..|ms|], ms[..n];
      assert Follows(trail[n], ms[n], trail[n + 1]);
      assert forall i :: 0 <= i < n ==> Follows(init[i], before[i], init[i + 1]) by {
        assert forall i :: 0 <= i < n ==> Follows(trail[i], ms[i], trail[i + 1]);
      }
      var done := InterleavingsAreFeasible(init, before);
      MoveRefines(trail[n], ms[n]);
      var a := ActionOf(trail[n], ms[n]);
      assert Mirrors(init, done, n) && done[..n] == done;
      FeasibleStep(FleetOf(trail[0]), done, a);
      FleetExtends(init, before, done, trail[n + 1], ms[n], a);
      acts := done + [a];
      assert init + [trail[n + 1]] == trail && before + [ms[n]] == ms;
    }
  }

  lemma NothingDone(f: Fleet)
    ensures Feasible(f, []) && Perform(f, []) == f
  {
  }

  /** The counter key is dropped while it counts slots. */
  predicate LosesSlots(s: System, m: Move) {
    m == Environment(SlotsLost) && s.view.inUse > 0
  }

  ghost predicate Accounted(s: System) {
    s.Valid() && s.view.inUse == |s.Holders()| + s.leaked
  }

  /** N workers running invokeLLM in any interleaving, with throws anywhere, lost replies, failed
      releases and crashes: at every moment the counter equals the calls that hold a slot plus the
      leaked slots, if and only if the counter key is never dropped while it counts slots. */
  lemma SlotsAccountedForIff(trail: seq<System>, ms: seq<Move>)
    requires Interleaving(trail, ms) && Idle(trail[0])
    ensures (forall k :: 0 <= k <= |ms| ==> Accounted(trail[k]))
       <==> (forall i :: 0 <= i < |ms| ==> !LosesSlots(trail[i], ms[i]))
  {
    hide Legal, Feasible, AsFleet, Accounted, LosesSlots, DropsSlots, Interleaving;
    var acts := InterleavingsAreFeasible(trail, ms);
    LengthsAgree(trail, ms, acts);
    var f := FleetOf(trail[0]);
    CounterExactIff(f, acts);
    forall k | 0 <= k <= |ms| ensures Accounted(trail[k]) <==> Perform(f, acts[..k]).Exact() {
      AccountedAsExact(trail, ms, acts, k);
    }
    forall i | 0 <= i < |ms| ensures LosesSlots(trail[i], ms[i]) <==> DropsSlots(Perform(f, acts[..i]), acts[i]) {
      LosesAsDrops(trail, ms, acts, i);
    }
    assert NeverDropsSlots(f, acts) <==> forall i :: 0 <= i < |ms| ==> !LosesSlots(trail[i], ms[i]);
    assert ExactThroughout(f, acts) <==> forall k :: 0 <= k <= |ms| ==> Accounted(trail[k]);
  }

  lemma LengthsAgree(trail: seq<System>, ms: seq<Move>, acts: seq<Action>)
    requires AsFleet(trail, ms, acts)
    ensures |trail| == |ms| + 1 && |acts| == |ms|
  {
  }

  lemma AccountedAsExact(trail: seq<System>, ms: seq<Move>, acts: seq<Action>, k: nat)
    requires AsFleet(trail, ms, acts) && k <= |ms|
    ensures trail[0].Valid() && (Accounted(trail[k]) <==> Perform(FleetOf(trail[0]), acts[..k]).Exact())
  {
    hide Perform;
    assert Mirrors(trail, acts, k);
  }

  lemma LosesAsDrops(trail: seq<System>, ms: seq<Move>, acts: seq<Action>, i: nat)
    requires AsFleet(trail, ms, acts) && i < |ms|
    ensures trail[0].Valid()
        && (LosesSlots(trail[i], ms[i]) <==> DropsSlots(Perform(FleetOf(trail[0]), acts[..i]), acts[i]))
  {
    hide Perform, Judge;
    assert Mirrors(trail, acts, i) && Stands(trail[i], ms[i], acts[i]);
  }

  /** Whatever happens, the counter never claims more slots than that. */
  lemma CounterNeverOverstates(trail: seq<System>, ms: seq<Move>)
    requires Interleaving(trail, ms) && Idle(trail[0])
    ensures trail[|ms|].Valid() && trail[|ms|].view.inUse <= |trail[|ms|].Holders()| + trail[|ms|].leaked
  {
    hide Legal, Feasible;
    var acts := InterleavingsAreFeasible(trail, ms);
    CounterNeverExceedsTaken(FleetOf(trail[0]), acts);
    assert Mirrors(trail, acts, |ms|);
    assert acts[..|ms|] == acts;
  }

  ghost predicate StepsWithin(ms: seq<Move>, ceiling: int) {
    forall i :: 0 <= i < |ms| && ms[i].Step? ==> 1 <= ms[i].effective <= ceiling
  }

  /** So with a fixed ceiling of at least one, calls that hold a slot and leaked slots together
      never exceed it while no counted slot is lost. */
  lemma SlotsWithinCeiling(trail: seq<System>, ms: seq<Move>, ceiling: int)
    requires Interleaving(trail, ms) && Idle(trail[0]) && ceiling >= 1 && StepsWithin(ms, ceiling)
    requires forall i :: 0 <= i < |ms| ==> !LosesSlots(trail[i], ms[i])
    ensures trail[|ms|].Valid() && |trail[|ms|].Holders()| + trail[|ms|].leaked <= ceiling
  {
    hide Legal, Feasible;
    var acts := InterleavingsAreFeasible(trail, ms);
    SlotsAccountedForIff(trail, ms);
    forall i | 0 <= i < |acts| && acts[i].Begin? ensures 1 <= acts[i].effective <= ceiling {
      assert Stands(trail[i], ms[i], acts[i]);
    }
    CounterKeepsCeiling(FleetOf(trail[0]), acts, ceiling);
    assert Mirrors(trail, acts, |ms|);
    assert acts[..|ms|] == acts;
    assert Accounted(trail[|ms|]);
  }

  /** When that can happen: if and only if the counter is in use and nothing has touched it for
      its whole TTL. */
  lemma LossPossibleIff(s: System)
    requires s.Valid()
    ensures (exists m :: Legal(s, m) && LosesSlots(s, m)) <==> !Alive(s.view)
  {
    if !Alive(s.view) {
      var m := Environment(SlotsLost);
      assert Legal(s, m) && LosesSlots(s, m);
    }
  }

  // ---- leaks ----

  /** A slot leaks when its call returns leaking, or dies holding. */
  ghost predicate LeaksSlot(s: System, m: Move)
    requires s.Valid() && Legal(s, m)
  {
    match m
    case Return(w) => InvokeLlm.Leaks(s.calls[w].args, s.calls[w].world)
    case Die(w) => s.calls[w].Holds()
    case _ => false
  }

  lemma LeakCounts(s: System, m: Move)
    requires s.Valid() && Legal(s, m)
    ensures Moved(s, m).leaked == s.leaked + if LeaksSlot(s, m) then 1 else 0
  {
    hide InvokeLlm.Trace, InvokeLlm.SlotsHeld, InvokeLlm.Leaks, Judge;
    if m.Return? {
      var r := s.calls[m.worker];
      InvokeLlm.SlotDiscipline(r.args, r.world, r.at);
      assert r.Trace()[..r.at] == r.Trace();
    }
  }

  /** No slot is leaked if and only if every call that returned could give its slot back and no
      call died holding one. */
  lemma {:induction false} NothingLeaksIff(trail: seq<System>, ms: seq<Move>)
    requires Interleaving(trail, ms) && Idle(trail[0])
    ensures trail[|ms|].leaked == 0
       <==> (forall i :: 0 <= i < |ms| ==> Follows(trail[i], ms[i], trail[i + 1]) && !LeaksSlot(trail[i], ms[i]))
  {
    hide Legal, Moved, LeaksSlot;
    if ms != [] {
      var n := |ms| - 1;
      assert Follows(trail[n], ms[n], trail[n + 1]);
      var init, before := trail[..|ms|], ms[..n];
      assert forall i :: 0 <= i < n ==> Follows(init[i], before[i], init[i + 1]);
      NothingLeaksIff(init, before);
      LeakCounts(trail[n], ms[n]);
    }
  }
}
