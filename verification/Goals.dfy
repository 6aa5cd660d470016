/**
 Goal evaluation and the "better than" comparison of the optimization loop.
 Metrics are finite; a missing metric counts as minus infinity.
 */
module Goals {
  import opened Wrappers

  datatype Op = AtLeast | AtMost | Above
  datatype Scope = Overall | PerClass(classLabel: string)
  datatype Goal = Goal(metric: string, op: Op, value: real, scope: Scope)
  datatype Metrics = Metrics(overall: map<string, real>, perClass: Option<map<string, map<string, real>>>)

  datatype Progress = Progress(goal: Goal, observed: Option<real>, achieved: bool)

  function Lookup(m: map<string, real>, key: string): Option<real> {
    if key in m then Some(m[key]) else None
  }

  /** readMetric. */
  function ReadMetric(m: Metrics, g: Goal): Option<real> {
    match g.scope
    case Overall => Lookup(m.overall, g.metric)
    case PerClass(name) =>
      if m.perClass.Some? && name in m.perClass.value then Lookup(m.perClass.value[name], g.metric) else None
  }

  predicate Compare(observed: real, op: Op, target: real) {
    match op
    case AtLeast => observed >= target
    case AtMost => observed <= target
    case Above => observed > target
  }

  predicate Achieved(g: Goal, m: Metrics) {
    ReadMetric(m, g).Some? && Compare(ReadMetric(m, g).value, g.op, g.value)
  }

  /** evaluateGoals. */
  function EvaluateGoals(goals: seq<Goal>, m: Metrics): (ps: seq<Progress>)
    ensures |ps| == |goals|
    ensures forall i :: 0 <= i < |goals| ==> ps[i].goal == goals[i] && ps[i].achieved == Achieved(goals[i], m)
    ensures forall i :: 0 <= i < |goals| ==> ps[i].observed == ReadMetric(m, goals[i])
  {
    seq(|goals|, i requires 0 <= i < |goals| =>
      Progress(goals[i], ReadMetric(m, goals[i]), Achieved(goals[i], m)))
  }

  /** progress.every(achieved): vacuously true without goals. */
  predicate EveryAchieved(ps: seq<Progress>) {
    forall i :: 0 <= i < |ps| ==> ps[i].achieved
  }

  /** allGoalsMet: false without goals. */
  predicate AllGoalsMet(goals: seq<Goal>, m: Metrics) {
    goals != [] && EveryAchieved(EvaluateGoals(goals, m))
  }

  /** A number or minus infinity. */
  datatype Score = MinusInfinity | Finite(value: real)

  function Plus(a: Score, b: Score): Score {
    if a.Finite? && b.Finite? then Finite(a.value + b.value) else MinusInfinity
  }

  predicate Greater(a: Score, b: Score) {
    a.Finite? && (b.Finite? ==> a.value > b.value)
  }

  function DirectionalScore(m: Metrics, g: Goal): Score {
    match ReadMetric(m, g)
    case None => MinusInfinity
    case Some(v) => Finite(if g.op == AtMost then -v else v)
  }

  function UnmetCount(goals: seq<Goal>, m: Metrics): nat {
    if goals == [] then 0
    else UnmetCount(goals[..|goals| - 1], m) + (if Achieved(goals[|goals| - 1], m) then 0 else 1)
  }

  function TotalScore(goals: seq<Goal>, m: Metrics): Score {
    if goals == [] then Finite(0.0)
    else Plus(TotalScore(goals[..|goals| - 1], m), DirectionalScore(m, goals[|goals| - 1]))
  }

  /** Fewer unmet goals win; on a tie the larger directional total wins. */
  predicate Better(candidate: Metrics, current: Metrics, goals: seq<Goal>) {
    goals != [] &&
    (UnmetCount(goals, candidate) < UnmetCount(goals, current)
     || (UnmetCount(goals, candidate) == UnmetCount(goals, current)
         && Greater(TotalScore(goals, candidate), TotalScore(goals, current))))
  }

  /** unmetCount. */
  method CountUnmet(goals: seq<Goal>, m: Metrics) returns (n: nat)
    ensures n == UnmetCount(goals, m)
  {
    n := 0;
    for i := 0 to |goals|
      invariant n == UnmetCount(goals[..i], m)
    {
      assert goals[..i + 1][..i] == goals[..i];
      var observed := ReadMetric(m, goals[i]);
      if observed.None? || !Compare(observed.value, goals[i].op, goals[i].value) {
        n := n + 1;
      }
    }
    assert goals[..|goals|] == goals;
  }

  /** isBetterThan. */
  method IsBetterThan(candidate: Metrics, current: Metrics, goals: seq<Goal>) returns (better: bool)
    ensures better == Better(candidate, current, goals)
  {
    if |goals| == 0 {
      return false;
    }
    var candidateUnmet := CountUnmet(goals, candidate);
    var currentUnmet := CountUnmet(goals, current);
    if candidateUnmet != currentUnmet {
      return candidateUnmet < currentUnmet;
    }
    var candidateScore, currentScore := Finite(0.0), Finite(0.0);
    for i := 0 to |goals|
      invariant candidateScore == TotalScore(goals[..i], candidate)
      invariant currentScore == TotalScore(goals[..i], current)
    {
      assert goals[..i + 1][..i] == goals[..i];
      candidateScore := Plus(candidateScore, DirectionalScore(candidate, goals[i]));
      currentScore := Plus(currentScore, DirectionalScore(current, goals[i]));
    }
    assert goals[..|goals|] == goals;
    return Greater(candidateScore, currentScore);
  }

  // ---- the order ----

  /** isBetterThan is a strict weak order: irreflexive, asymmetric, transitive, and so is
      "neither is better". */
  lemma BetterIsStrictWeakOrder(a: Metrics, b: Metrics, c: Metrics, goals: seq<Goal>)
    ensures !Better(a, a, goals)
    ensures Better(a, b, goals) ==> !Better(b, a, goals)
    ensures Better(a, b, goals) && Better(b, c, goals) ==> Better(a, c, goals)
    ensures !Better(a, b, goals) && !Better(b, c, goals) ==> !Better(a, c, goals)
  {
  }

  /** unmetCount is zero exactly for metrics that meet every goal. */
  lemma {:induction false} NoneUnmet(goals: seq<Goal>, m: Metrics)
    ensures UnmetCount(goals, m) <= |goals|
    ensures UnmetCount(goals, m) == 0 <==> EveryAchieved(EvaluateGoals(goals, m))
  {
    if goals != [] {
      var init := goals[..|goals| - 1];
      NoneUnmet(init, m);
      var ps, qs := EvaluateGoals(goals, m), EvaluateGoals(init, m);
      assert forall i :: 0 <= i < |init| ==> ps[i].achieved == qs[i].achieved;
      assert EveryAchieved(ps) <==> EveryAchieved(qs) && ps[|init|].achieved;
    }
  }

  /** Meeting all goals beats not meeting them, and nothing that misses one beats it. */
  lemma MeetingAllGoalsWins(met: Metrics, unmet: Metrics, goals: seq<Goal>)
    requires goals != [] && AllGoalsMet(goals, met) && !AllGoalsMet(goals, unmet)
    ensures Better(met, unmet, goals) && !Better(unmet, met, goals)
  {
    NoneUnmet(goals, met);
    NoneUnmet(goals, unmet);
  }

  // ---- what the comparison is about ----

  /** A goal looks at its own metric in its own scope, and nowhere else. */
  lemma ReadsItsOwnMetric(m: Metrics, g: Goal, v: real)
    ensures g.scope == Overall ==>
              (ReadMetric(m, g) == Some(v) <==> g.metric in m.overall && m.overall[g.metric] == v)
    ensures forall name :: g.scope == PerClass(name) ==>
              (ReadMetric(m, g) == Some(v) <==>
                 m.perClass.Some? && name in m.perClass.value && g.metric in m.perClass.value[name]
                 && m.perClass.value[name][g.metric] == v)
  {
  }

  /** The target is the boundary: on it a goal is met unless it asks for more; on its good side it is
      met, on its bad side missed. */
  lemma TargetIsTheBoundary(g: Goal, m: Metrics)
    ensures ReadMetric(m, g).None? ==> !Achieved(g, m)
    ensures ReadMetric(m, g) == Some(g.value) ==> (Achieved(g, m) <==> g.op != Above)
    ensures ReadMetric(m, g).Some? && ReadMetric(m, g).value < g.value ==> (Achieved(g, m) <==> g.op == AtMost)
    ensures ReadMetric(m, g).Some? && ReadMetric(m, g).value > g.value ==> (Achieved(g, m) <==> g.op != AtMost)
  {
  }

  /** Goals are met all together or not at all, and no goals are never met. */
  lemma AllMetMeans(goals: seq<Goal>, m: Metrics)
    ensures AllGoalsMet(goals, m) <==> goals != [] && forall g :: g in goals ==> Achieved(g, m)
  {
    assert forall i :: 0 <= i < |goals| ==> goals[i] in goals;
  }

  ghost predicate AllMeasured(goals: seq<Goal>, m: Metrics) {
    forall g :: g in goals ==> ReadMetric(m, g).Some?
  }

  /** How far the candidate is ahead of the current metrics, each goal counted in its own direction. */
  function TotalGain(goals: seq<Goal>, candidate: Metrics, current: Metrics): real {
    if goals == [] then 0.0
    else
      var g := goals[|goals| - 1];
      var more := ReadMetric(candidate, g).GetOr(0.0) - ReadMetric(current, g).GetOr(0.0);
      TotalGain(goals[..|goals| - 1], candidate, current) + if g.op == AtMost then -more else more
  }

  lemma {:induction false} ScoreIsFinite(goals: seq<Goal>, m: Metrics)
    ensures TotalScore(goals, m).Finite? <==> AllMeasured(goals, m)
  {
    if goals != [] {
      var init, last := goals[..|goals| - 1], goals[|goals| - 1];
      ScoreIsFinite(init, m);
      assert goals == init + [last];
    }
  }

  lemma {:induction false} ScoresDifferByGain(goals: seq<Goal>, candidate: Metrics, current: Metrics)
    requires AllMeasured(goals, candidate) && AllMeasured(goals, current)
    ensures TotalScore(goals, candidate).Finite? && TotalScore(goals, current).Finite?
    ensures TotalScore(goals, candidate).value - TotalScore(goals, current).value
         == TotalGain(goals, candidate, current)
  {
    if goals != [] {
      ScoresDifferByGain(goals[..|goals| - 1], candidate, current);
    }
  }

  /** With as many goals unmet, the candidate is better if and only if all its metrics are measured
      and either one of the current metrics is not, or the candidate gains more than it loses. */
  lemma TieBreak(candidate: Metrics, current: Metrics, goals: seq<Goal>)
    requires goals != [] && UnmetCount(goals, candidate) == UnmetCount(goals, current)
    ensures Better(candidate, current, goals)
       <==> AllMeasured(goals, candidate)
            && (AllMeasured(goals, current) ==> TotalGain(goals, candidate, current) > 0.0)
  {
    ScoreIsFinite(goals, candidate);
    ScoreIsFinite(goals, current);
    if AllMeasured(goals, candidate) && AllMeasured(goals, current) {
      ScoresDifferByGain(goals, candidate, current);
    }
  }

  lemma {:induction false} AchievingMore(goals: seq<Goal>, candidate: Metrics, current: Metrics)
    requires forall g :: g in goals && Achieved(g, current) ==> Achieved(g, candidate)
    ensures UnmetCount(goals, candidate) <= UnmetCount(goals, current)
  {
    if goals != [] {
      assert goals[|goals| - 1] in goals;
      AchievingMore(goals[..|goals| - 1], candidate, current);
    }
  }

  lemma {:induction false} GainAddsUp(goals: seq<Goal>, candidate: Metrics, current: Metrics)
    requires AllMeasured(goals, candidate) && AllMeasured(goals, current)
    requires forall g :: g in goals ==>
               if g.op == AtMost then ReadMetric(candidate, g).value <= ReadMetric(current, g).value
               else ReadMetric(candidate, g).value >= ReadMetric(current, g).value
    ensures TotalGain(goals, candidate, current) >= 0.0
    ensures (exists g :: g in goals && ReadMetric(candidate, g) != ReadMetric(current, g)) ==>
              TotalGain(goals, candidate, current) > 0.0
  {
    if goals != [] {
      var init, last := goals[..|goals| - 1], goals[|goals| - 1];
      assert goals == init + [last];
      GainAddsUp(init, candidate, current);
    }
  }

  /** Metrics that are nowhere worse and somewhere different are better. */
  lemma DominanceWins(candidate: Metrics, current: Metrics, goals: seq<Goal>)
    requires forall g :: g in goals ==> ReadMetric(candidate, g).Some? && ReadMetric(current, g).Some?
    requires forall g :: g in goals && g.op == AtMost ==>
               ReadMetric(candidate, g).value <= ReadMetric(current, g).value
    requires forall g :: g in goals && g.op != AtMost ==>
               ReadMetric(candidate, g).value >= ReadMetric(current, g).value
    requires exists g :: g in goals && ReadMetric(candidate, g) != ReadMetric(current, g)
    ensures Better(candidate, current, goals) && !Better(current, candidate, goals)
  {
    hide ReadMetric;
    AchievingMore(goals, candidate, current);
    GainAddsUp(goals, candidate, current);
    if UnmetCount(goals, candidate) == UnmetCount(goals, current) {
      TieBreak(candidate, current, goals);
    }
    BetterIsStrictWeakOrder(candidate, current, candidate, goals);
  }

  /** All else equal, a measured metric never loses to a missing one, and wins if nothing else is missing. */
  lemma MeasuredBeatsMissing(candidate: Metrics, current: Metrics, goals: seq<Goal>)
    requires forall g :: g in goals ==>
               ReadMetric(current, g).None? || ReadMetric(current, g) == ReadMetric(candidate, g)
    ensures !Better(current, candidate, goals)
    ensures AllMeasured(goals, candidate) && !AllMeasured(goals, current) ==> Better(candidate, current, goals)
  {
    hide ReadMetric;
    AchievingMore(goals, candidate, current);
    if goals != [] && UnmetCount(goals, candidate) == UnmetCount(goals, current) {
      TieBreak(candidate, current, goals);
      TieBreak(current, candidate, goals);
      if AllMeasured(goals, candidate) && AllMeasured(goals, current) {
        GainAddsUp(goals, candidate, current);
        SameReadingsGainNothing(goals, current, candidate);
      }
    }
  }

  lemma {:induction false} SameReadingsGainNothing(goals: seq<Goal>, a: Metrics, b: Metrics)
    requires forall g :: g in goals ==> ReadMetric(a, g) == ReadMetric(b, g)
    ensures TotalGain(goals, a, b) == 0.0
  {
    if goals != [] {
      assert goals[|goals| - 1] in goals;
      SameReadingsGainNothing(goals[..|goals| - 1], a, b);
    }
  }

  // ---- the running best ----

  /** The index of the running best among a baseline (index 0) and what followed it. */
  function BestIndex(history: seq<Metrics>, goals: seq<Goal>): (b: nat)
    requires history != []
    ensures b < |history|
  {
    if |history| == 1 then 0
    else
      var n := |history| - 1;
      var b := BestIndex(history[..n], goals);
      if Better(history[n], history[b], goals) then n else b
  }

  lemma BestIndexAppend(history: seq<Metrics>, m: Metrics, goals: seq<Goal>)
    requires history != []
    ensures BestIndex(history + [m], goals)
         == if Better(m, history[BestIndex(history, goals)], goals) then |history| else BestIndex(history, goals)
  {
    hide Better;
    assert (history + [m])[..|history|] == history;
  }

  /** The running best is the earliest maximal element: nothing recorded is better, and it is
      better than everything recorded before it. */
  lemma {:induction false} BestIsEarliestMaximal(history: seq<Metrics>, goals: seq<Goal>, k: nat)
    requires k < |history|
    ensures !Better(history[k], history[BestIndex(history, goals)], goals)
    ensures k < BestIndex(history, goals) ==> Better(history[BestIndex(history, goals)], history[k], goals)
  {
    hide Better;
    var n := |history| - 1;
    var best := BestIndex(history, goals);
    if n == 0 {
      BetterIsStrictWeakOrder(history[0], history[0], history[0], goals);
    } else {
      var b := BestIndex(history[..n], goals);
      if k < n {
        BestIsEarliestMaximal(history[..n], goals, k);
        BetterIsStrictWeakOrder(history[k], history[b], history[n], goals);
        BetterIsStrictWeakOrder(history[n], history[b], history[k], goals);
        BetterIsStrictWeakOrder(history[b], history[n], history[k], goals);
        BetterIsStrictWeakOrder(history[n], history[k], history[b], goals);
      } else {
        BetterIsStrictWeakOrder(history[n], history[n], history[n], goals);
      }
    }
  }

  /** An element replaces the running best exactly when it beats everything before it. */
  lemma {:induction false} ReplacesIffBeatsAll(history: seq<Metrics>, candidate: Metrics, goals: seq<Goal>)
    requires history != []
    ensures Better(candidate, history[BestIndex(history, goals)], goals)
       <==> forall k :: 0 <= k < |history| ==> Better(candidate, history[k], goals)
  {
    hide Better;
    var b := BestIndex(history, goals);
    if Better(candidate, history[b], goals) {
      forall k | 0 <= k < |history| ensures Better(candidate, history[k], goals) {
        BestIsEarliestMaximal(history, goals, k);
        BetterIsStrictWeakOrder(candidate, history[k], history[b], goals);
        BetterIsStrictWeakOrder(history[k], history[b], candidate, goals);
      }
    }
  }

  // ---- decideRoundOutcome ----

  datatype Decision = Decision(isBest: bool, goalsMet: bool, newBestMetrics: Metrics, goalProgress: seq<Progress>)

  function DecideRoundOutcome(roundMetrics: Metrics, bestMetrics: Metrics, goals: seq<Goal>): Decision {
    var isBest := Better(roundMetrics, bestMetrics, goals);
    var newBest := if isBest then roundMetrics else bestMetrics;
    var progress := EvaluateGoals(goals, newBest);
    Decision(isBest, |progress| > 0 && EveryAchieved(progress), newBest, progress)
  }

  /** The progress reported is that of the best after the round, which need not be the round's own. */
  lemma ProgressIsOfTheBest(roundMetrics: Metrics, bestMetrics: Metrics, goals: seq<Goal>)
    ensures
      var d := DecideRoundOutcome(roundMetrics, bestMetrics, goals);
      && d.goalProgress == EvaluateGoals(goals, d.newBestMetrics)
      && (d.goalsMet <==> AllGoalsMet(goals, d.newBestMetrics))
      && (d.newBestMetrics == bestMetrics || (d.newBestMetrics == roundMetrics && d.isBest))
      && !Better(roundMetrics, d.newBestMetrics, goals) && !Better(bestMetrics, d.newBestMetrics, goals)
  {
    hide Better;
    BetterIsStrictWeakOrder(roundMetrics, bestMetrics, roundMetrics, goals);
    BetterIsStrictWeakOrder(bestMetrics, bestMetrics, bestMetrics, goals);
  }

  /** While the best so far misses a goal, a round is decided "goals met" exactly when its own
      metrics meet all goals, and then it is the new best. */
  lemma GoalsMetByTheRound(roundMetrics: Metrics, bestMetrics: Metrics, goals: seq<Goal>)
    requires !AllGoalsMet(goals, bestMetrics)
    ensures DecideRoundOutcome(roundMetrics, bestMetrics, goals).goalsMet <==> AllGoalsMet(goals, roundMetrics)
    ensures AllGoalsMet(goals, roundMetrics) ==> DecideRoundOutcome(roundMetrics, bestMetrics, goals).isBest
  {
    if AllGoalsMet(goals, roundMetrics) {
      MeetingAllGoalsWins(roundMetrics, bestMetrics, goals);
    }
  }
}
