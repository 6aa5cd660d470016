/**
 runIterationLoop: round after round, generate a version from the current best, run it, keep
 the best, remember a regression, and decide whether to stop. Everything the loop calls may
 answer anything or throw; each round's answers are an arbitrary input.
 */
module IterationLoop {
  import opened Wrappers
  import opened Goals
  import opened VariableRules
  import opened AutoPatch
  import opened Generate
  import Placeholders

  datatype Version = Version(id: string, body: string)
  type RunResults = nat

  datatype Config = Config(
    goals: seq<Goal>, maxRounds: int, stopAfterNoImprovementRounds: int,
    promptVariables: seq<string>, language: Language)

  datatype Snapshot = Snapshot(base: Version, lastMetrics: Metrics, lastResults: RunResults)

  datatype Signal = Proceed | StopSignal | CancelSignal | ReadFailed(error: string)

  datatype Run = Run(metrics: Metrics, results: RunResults)

  /** What the ports and the model answer in one round; None or Ok means no throw. generationRecord
      is the writing of the adopted generate call's run result. */
  datatype RoundWorld = RoundWorld(
    signal: Signal,
    previousResults: Option<string>,
    analysis: Result<set<string>, string>,
    replies: nat -> Reply,
    generationRecord: Option<string>,
    writtenId: Result<string, string>,
    run: Result<Run, string>,
    recordRound: Option<string>)

  datatype Round = Round(number: int, versionId: string, metrics: Metrics, results: RunResults, isBest: bool,
      progress: seq<Progress>)

  /** A version with what its run gave: what one analysis looks at. */
  datatype Tried = Tried(version: Version, results: RunResults, metrics: Metrics)

  datatype HistoryEntry = HistoryEntry(round: int, metrics: Metrics, delta: Option<real>, isBest: bool,
      baseVersionId: string)

  /** What the loop went through: recorded rounds, history entries, written versions, and for each
      written version the one it was generated from and the run whose failures were analysed. */
  datatype Log = Log(
    rounds: seq<Round>, history: seq<HistoryEntry>,
    written: seq<Version>, parents: seq<Version>, analysed: seq<Tried>)

  datatype Pending = Pending(
    base: Version, baseResults: RunResults, baseMetrics: Metrics,
    regressed: Version, regressedResults: RunResults, regressedMetrics: Metrics)

  datatype State = State(best: Version, bestMetrics: Metrics, bestResults: RunResults, pending: Option<Pending>,
      log: Log)

  datatype Reason = GoalsMet | MaxRounds | NoImprovement | ControlStop | ControlCancel | FatalError(error: string)
  datatype Outcome = Outcome(reason: Reason, best: Version, bestMetrics: Metrics, rounds: seq<Round>)

  /** What writePromptVersion is asked to persist, with the id it answers. */
  datatype Write = Write(parentVersionId: string, version: Version)

  /** The ports that the loop has effects on; the fields are the calls they saw, in order. */
  class Ports {
    var written: seq<Write>
    var rounds: seq<Round>
    var finals: seq<Outcome>

    constructor ()
      ensures written == [] && rounds == [] && finals == []
    {
      written, rounds, finals := [], [], [];
    }

    method WritePromptVersion(parentVersionId: string, v: Version)
      modifies this`written
      ensures written == old(written) + [Write(parentVersionId, v)]
    {
      written := written + [Write(parentVersionId, v)];
    }

    method RecordRound(r: Round)
      modifies this`rounds
      ensures rounds == old(rounds) + [r]
    {
      rounds := rounds + [r];
    }

    method RecordFinal(o: Outcome)
      modifies this`finals
      ensures finals == old(finals) + [o]
    {
      finals := finals + [o];
    }
  }

  /** What the ports had seen before the run. */
  datatype Past = Past(written: seq<Write>, rounds: seq<Round>)

  /** The log's versions, each as a child of the one it was generated from. */
  function Writes(written: seq<Version>, parents: seq<Version>): (ws: seq<Write>)
    ensures |ws| == if |parents| < |written| then |parents| else |written|
  {
    seq(if |parents| < |written| then |parents| else |written|,
        i requires 0 <= i < |parents| && i < |written| => Write(parents[i].id, written[i]))
  }

  lemma WritesMore(written: seq<Version>, parents: seq<Version>, v: Version, parent: Version)
    requires |written| == |parents|
    ensures Writes(written + [v], parents + [parent]) == Writes(written, parents) + [Write(parent.id, v)]
  {
  }

  /** Since then the ports saw each version, with its parent, and each round of the log once, in order. */
  predicate Told(ports: Ports, past: Past, log: Log)
    reads ports`written, ports`rounds
  {
    ports.written == past.written + Writes(log.written, log.parents) && ports.rounds == past.rounds + log.rounds
  }

  // ---- what the log must say ----

  /** The baseline metrics followed by every recorded round's. */
  function History(base: Metrics, rounds: seq<Round>): (h: seq<Metrics>)
    ensures |h| == |rounds| + 1
    ensures h[0] == base && forall i :: 0 <= i < |rounds| ==> h[i + 1] == rounds[i].metrics
  {
    [base] + seq(|rounds|, i requires 0 <= i < |rounds| => rounds[i].metrics)
  }

  /** Index of the best among the baseline and the first n rounds. */
  function BestAfter(c: Config, s: Snapshot, rounds: seq<Round>, n: nat): (b: nat)
    requires n <= |rounds|
    ensures b <= n
  {
    BestIndex(History(s.lastMetrics, rounds)[..n + 1], c.goals)
  }

  function BestMetricsAfter(c: Config, s: Snapshot, rounds: seq<Round>, n: nat): Metrics
    requires n <= |rounds|
  {
    History(s.lastMetrics, rounds)[BestAfter(c, s, rounds, n)]
  }

  /** The run results that belong to the best. */
  function BestResultsAfter(c: Config, s: Snapshot, rounds: seq<Round>, n: nat): RunResults
    requires n <= |rounds|
  {
    var b := BestAfter(c, s, rounds, n);
    if b == 0 then s.lastResults else rounds[b - 1].results
  }

  function BestVersionAfter(c: Config, s: Snapshot, log: Log, n: nat): Version
    requires n <= |log.rounds| && n <= |log.written|
  {
    ([s.base] + log.written)[BestAfter(c, s, log.rounds, n)]
  }

  ghost predicate Shaped(log: Log) {
    && |log.rounds| <= |log.written| <= |log.rounds| + 1
    && |log.parents| == |log.analysed| == |log.written|
  }

  /** Every version was generated from the best version at that time. */
  ghost predicate GeneratedFromBest(c: Config, s: Snapshot, log: Log)
    requires Shaped(log)
  {
    forall i :: 0 <= i < |log.written| ==> log.parents[i] == BestVersionAfter(c, s, log, i)
  }

  /** The analysis looked at the previous round's version, results and metrics exactly when that
      round was worse than the best, and at those of the best otherwise. */
  ghost predicate AnalysedRegressions(c: Config, s: Snapshot, log: Log)
    requires Shaped(log)
  {
    forall i :: 0 <= i < |log.written| ==>
      log.analysed[i] == Examined(c, s, log.rounds, log.written, log.parents[i], i)
  }

  function Examined(c: Config, s: Snapshot, rounds: seq<Round>, written: seq<Version>, parent: Version, n: nat): Tried
    requires n <= |rounds| && n <= |written|
  {
    if Regressed(c, s, rounds, n) then Tried(written[n - 1], rounds[n - 1].results, rounds[n - 1].metrics)
    else Tried(parent, BestResultsAfter(c, s, rounds, n), BestMetricsAfter(c, s, rounds, n))
  }

  predicate Regressed(c: Config, s: Snapshot, rounds: seq<Round>, n: nat)
    requires n <= |rounds|
  {
    n > 0 && Better(BestMetricsAfter(c, s, rounds, n), rounds[n - 1].metrics, c.goals)
  }

  /** Every recorded round carries the decision of decideRoundOutcome against the best before it. */
  ghost predicate DecidedRight(c: Config, s: Snapshot, log: Log)
    requires Shaped(log)
  {
    forall i :: 0 <= i < |log.rounds| ==> RoundDecided(c, s, log, i)
  }

  ghost predicate RoundDecided(c: Config, s: Snapshot, log: Log, i: nat)
    requires Shaped(log) && i < |log.rounds|
  {
    var r := log.rounds[i];
    var d := DecideRoundOutcome(r.metrics, BestMetricsAfter(c, s, log.rounds, i), c.goals);
    && r.number == i + 1 && r.versionId == log.written[i].id
    && r.isBest == d.isBest && r.progress == d.goalProgress
    && BestMetricsAfter(c, s, log.rounds, i + 1) == d.newBestMetrics
  }

  /** Every version written uses only whitelisted placeholders and keeps every whitelisted
      placeholder of its parent and of the original base prompt. */
  ghost predicate AllUsable(c: Config, s: Snapshot, log: Log)
    requires Shaped(log)
  {
    forall i :: 0 <= i < |log.written| ==>
      && Usable(log.written[i].body, log.parents[i].body, c.promptVariables)
      && Usable(log.written[i].body, s.base.body, c.promptVariables)
  }

  ghost predicate LogOk(c: Config, s: Snapshot, log: Log) {
    && Shaped(log)
    && GeneratedFromBest(c, s, log)
    && AnalysedRegressions(c, s, log)
    && DecidedRight(c, s, log)
    && AllUsable(c, s, log)
  }

  /** The history handed to the next round mirrors the recorded rounds. */
  ghost predicate HistoryMirrors(c: Config, log: Log)
    requires Shaped(log)
  {
    && |log.history| <= |log.rounds|
    && (forall i :: 0 <= i < |log.history| ==>
          && log.history[i].round == log.rounds[i].number && log.history[i].metrics == log.rounds[i].metrics
          && log.history[i].isBest == log.rounds[i].isBest && log.history[i].baseVersionId == log.parents[i].id
          && log.history[i].delta == PrimaryChange(c.goals, log.rounds, i))
  }

  /** By how much a round moved the first goal's metric from the round before it, if both have it. */
  function PrimaryChange(goals: seq<Goal>, rounds: seq<Round>, i: nat): Option<real>
    requires i < |rounds|
  {
    if goals == [] || i == 0 then None
    else
      match (ReadMetric(rounds[i].metrics, goals[0]), ReadMetric(rounds[i - 1].metrics, goals[0]))
      case (Some(now), Some(before)) => Some(now - before)
      case _ => None
  }

  /** The change leads from the previous round's value to the round's own. */
  lemma ChangeLeadsOn(goals: seq<Goal>, rounds: seq<Round>, i: nat, d: real)
    requires i < |rounds|
    ensures PrimaryChange(goals, rounds, i) == Some(d)
       <==> goals != [] && i > 0
            && ReadMetric(rounds[i].metrics, goals[0]).Some? && ReadMetric(rounds[i - 1].metrics, goals[0]).Some?
            && ReadMetric(rounds[i - 1].metrics, goals[0]).value + d == ReadMetric(rounds[i].metrics, goals[0]).value
  {
    hide ReadMetric;
  }

  /** The loop's variables agree with the log. */
  ghost predicate StateOk(c: Config, s: Snapshot, st: State) {
    && LogOk(c, s, st.log)
    && HistoryMirrors(c, st.log)
    && st.bestMetrics == BestMetricsAfter(c, s, st.log.rounds, |st.log.rounds|)
    && st.bestResults == BestResultsAfter(c, s, st.log.rounds, |st.log.rounds|)
    && st.best == BestVersionAfter(c, s, st.log, |st.log.rounds|)
  }

  /** Between rounds: every written version was run and recorded, and a pending regression
      names the best version, so generation always starts from the best. */
  ghost predicate Ready(c: Config, s: Snapshot, st: State) {
    && StateOk(c, s, st)
    && |st.log.written| == |st.log.rounds| == |st.log.history|
    && (st.pending.Some? <==> Regressed(c, s, st.log.rounds, |st.log.rounds|))
    && (st.pending.Some? ==>
          && st.pending.value.base == st.best
          && st.pending.value.baseMetrics == st.bestMetrics
          && st.pending.value.baseResults == st.bestResults
          && st.pending.value.regressed == st.log.written[|st.log.written| - 1]
          && st.pending.value.regressedResults == st.log.rounds[|st.log.rounds| - 1].results
          && st.pending.value.regressedMetrics == st.log.rounds[|st.log.rounds| - 1].metrics)
  }

  // ---- extending the log ----

  lemma HistoryAppend(base: Metrics, rounds: seq<Round>, r: Round)
    ensures History(base, rounds + [r]) == History(base, rounds) + [r.metrics]
  {
  }

  lemma BestAfterPrefix(c: Config, s: Snapshot, rounds: seq<Round>, r: Round, n: nat)
    requires n <= |rounds|
    ensures BestAfter(c, s, rounds + [r], n) == BestAfter(c, s, rounds, n)
    ensures BestMetricsAfter(c, s, rounds + [r], n) == BestMetricsAfter(c, s, rounds, n)
    ensures BestResultsAfter(c, s, rounds + [r], n) == BestResultsAfter(c, s, rounds, n)
  {
    HistoryAppend(s.lastMetrics, rounds, r);
    var h := History(s.lastMetrics, rounds);
    assert (h + [r.metrics])[..n + 1] == h[..n + 1];
  }

  lemma BestAfterAppend(c: Config, s: Snapshot, rounds: seq<Round>, r: Round)
    ensures
      var n := |rounds|;
      BestAfter(c, s, rounds + [r], n + 1)
      == if Better(r.metrics, BestMetricsAfter(c, s, rounds, n), c.goals) then n + 1 else BestAfter(c, s, rounds, n)
    ensures BestMetricsAfter(c, s, rounds + [r], |rounds| + 1)
         == DecideRoundOutcome(r.metrics, BestMetricsAfter(c, s, rounds, |rounds|), c.goals).newBestMetrics
    ensures BestResultsAfter(c, s, rounds + [r], |rounds| + 1)
         == if Better(r.metrics, BestMetricsAfter(c, s, rounds, |rounds|), c.goals) then r.results
            else BestResultsAfter(c, s, rounds, |rounds|)
  {
    hide Better, EvaluateGoals, History, BestIndex;
    HistoryAppend(s.lastMetrics, rounds, r);
    var h := History(s.lastMetrics, rounds);
    BestIndexAppend(h, r.metrics, c.goals);
    assert (h + [r.metrics])[..|rounds| + 2] == h + [r.metrics];
    assert h[..|rounds| + 1] == h;
  }

  function WithVersion(log: Log, v: Version, parent: Version, analysed: Tried): Log {
    log.(written := log.written + [v], parents := log.parents + [parent], analysed := log.analysed + [analysed])
  }

  lemma WriteKeepsSources(c: Config, s: Snapshot, log: Log, v: Version, parent: Version, analysed: Tried)
    requires Shaped(log) && GeneratedFromBest(c, s, log) && AnalysedRegressions(c, s, log)
        && |log.written| == |log.rounds|
    requires parent == BestVersionAfter(c, s, log, |log.rounds|)
    requires analysed == Examined(c, s, log.rounds, log.written, parent, |log.rounds|)
    ensures GeneratedFromBest(c, s, WithVersion(log, v, parent, analysed))
    ensures AnalysedRegressions(c, s, WithVersion(log, v, parent, analysed))
  {
    hide BestAfter, Regressed, BestResultsAfter, BestMetricsAfter;
    var log' := WithVersion(log, v, parent, analysed);
    forall i | 0 <= i < |log'.written| ensures log'.parents[i] == BestVersionAfter(c, s, log', i) {
      assert BestVersionAfter(c, s, log', i) == BestVersionAfter(c, s, log, i);
    }
  }

  lemma WriteKeepsDecisions(c: Config, s: Snapshot, log: Log, v: Version, parent: Version, analysed: Tried)
    requires Shaped(log) && DecidedRight(c, s, log) && |log.written| == |log.rounds|
    ensures DecidedRight(c, s, WithVersion(log, v, parent, analysed))
  {
    hide BestMetricsAfter, DecideRoundOutcome;
    var log' := WithVersion(log, v, parent, analysed);
    forall i | 0 <= i < |log'.rounds| ensures RoundDecided(c, s, log', i) {
      assert RoundDecided(c, s, log, i);
    }
  }

  lemma WriteKeepsUsable(c: Config, s: Snapshot, log: Log, v: Version, parent: Version, analysed: Tried)
    requires Shaped(log) && AllUsable(c, s, log) && |log.written| == |log.rounds|
    requires parent == BestVersionAfter(c, s, log, |log.rounds|) && Usable(v.body, parent.body, c.promptVariables)
    ensures AllUsable(c, s, WithVersion(log, v, parent, analysed))
  {
    hide Usable, BestAfter;
    assert parent == s.base || Usable(parent.body, s.base.body, c.promptVariables);
    UsableComposes(v.body, parent.body, s.base.body, c.promptVariables);
  }

  /** Writing a version extends a good log, given what generation promised about its body. */
  lemma WriteExtends(c: Config, s: Snapshot, log: Log, v: Version, parent: Version, analysed: Tried)
    requires LogOk(c, s, log) && |log.written| == |log.rounds|
    requires parent == BestVersionAfter(c, s, log, |log.rounds|)
    requires analysed == Examined(c, s, log.rounds, log.written, parent, |log.rounds|)
    requires Usable(v.body, parent.body, c.promptVariables)
    ensures LogOk(c, s, WithVersion(log, v, parent, analysed))
  {
    hide GeneratedFromBest, AnalysedRegressions, DecidedRight, AllUsable, Usable, BestVersionAfter, Examined;
    WriteKeepsSources(c, s, log, v, parent, analysed);
    WriteKeepsDecisions(c, s, log, v, parent, analysed);
    WriteKeepsUsable(c, s, log, v, parent, analysed);
  }

  lemma RecordKeepsSources(c: Config, s: Snapshot, log: Log, r: Round)
    requires Shaped(log) && GeneratedFromBest(c, s, log) && AnalysedRegressions(c, s, log)
        && |log.written| == |log.rounds| + 1
    ensures GeneratedFromBest(c, s, log.(rounds := log.rounds + [r]))
    ensures AnalysedRegressions(c, s, log.(rounds := log.rounds + [r]))
  {
    hide BestAfter, BestMetricsAfter, BestResultsAfter, Better;
    var log' := log.(rounds := log.rounds + [r]);
    forall i | 0 <= i < |log.written| ensures log'.parents[i] == BestVersionAfter(c, s, log', i) {
      BestAfterPrefix(c, s, log.rounds, r, i);
      assert log.parents[i] == BestVersionAfter(c, s, log, i);
    }
    forall i | 0 <= i < |log.written| ensures log'.analysed[i]
        == Examined(c, s, log'.rounds, log'.written, log'.parents[i], i) {
      BestAfterPrefix(c, s, log.rounds, r, i);
      assert log.analysed[i] == Examined(c, s, log.rounds, log.written, log.parents[i], i);
    }
  }

  lemma RecordKeepsDecisions(c: Config, s: Snapshot, log: Log, r: Round)
    requires Shaped(log) && DecidedRight(c, s, log) && |log.written| == |log.rounds| + 1
    requires r.number == |log.rounds| + 1 && r.versionId == log.written[|log.rounds|].id
    requires var d := DecideRoundOutcome(r.metrics, BestMetricsAfter(c, s, log.rounds, |log.rounds|), c.goals);
             r.isBest == d.isBest && r.progress == d.goalProgress
    ensures DecidedRight(c, s, log.(rounds := log.rounds + [r]))
  {
    hide BestAfter, BestMetricsAfter, BestResultsAfter, Better, DecideRoundOutcome;
    var log' := log.(rounds := log.rounds + [r]);
    forall i | 0 <= i < |log'.rounds| ensures RoundDecided(c, s, log', i) {
      BestAfterPrefix(c, s, log.rounds, r, i);
      if i == |log.rounds| {
        BestAfterAppend(c, s, log.rounds, r);
      } else {
        BestAfterPrefix(c, s, log.rounds, r, i + 1);
        assert RoundDecided(c, s, log, i);
      }
    }
  }

  /** Recording a round with its decision extends a good log. */
  lemma RecordExtends(c: Config, s: Snapshot, log: Log, r: Round)
    requires LogOk(c, s, log) && |log.written| == |log.rounds| + 1
    requires r.number == |log.rounds| + 1 && r.versionId == log.written[|log.rounds|].id
    requires var d := DecideRoundOutcome(r.metrics, BestMetricsAfter(c, s, log.rounds, |log.rounds|), c.goals);
             r.isBest == d.isBest && r.progress == d.goalProgress
    ensures LogOk(c, s, log.(rounds := log.rounds + [r]))
  {
    hide GeneratedFromBest, AnalysedRegressions, DecidedRight, Usable, BestMetricsAfter, DecideRoundOutcome;
    RecordKeepsSources(c, s, log, r);
    RecordKeepsDecisions(c, s, log, r);
  }

  // ---- one round ----

  /** buildHistoryEntryFromRound. */
  function HistoryEntryFor(number: int, metrics: Metrics, isBest: bool, baseVersionId: string,
                           goals: seq<Goal>, previous: seq<HistoryEntry>): HistoryEntry {
    var current := if goals != [] then ReadMetric(metrics, goals[0]) else None;
    var before :=
      if previous != [] && goals != [] then ReadMetric(previous[|previous| - 1].metrics, goals[0]) else None;
    var delta := if current.Some? && before.Some? then Some(current.value - before.value) else None;
    HistoryEntry(number, metrics, delta, isBest, baseVersionId)
  }

  function ErrorText(e: GenerateError): string {
    match e
    case InvokeError(m) => m
    case MalformedGeneration(m) => m
    case InvalidAppliedChangeReference(_) => "InvalidAppliedChangeReferenceError"
    case InvalidVariableUsage(_, _, _) => "InvalidVariableUsageError"
  }

  /** The first throw, in program order, of the steps up to the new body. The earlier round's run
      results are only read while no regression is pending. */
  function DraftThrow(c: Config, w: RoundWorld, looksBack: bool, base: string): Option<string> {
    if looksBack && w.previousResults.Some? then w.previousResults
    else if w.analysis.Err? then Some(w.analysis.error)
    else
      match GenerationError(base, c.promptVariables, w.analysis.value, w.replies, 0)
      case Some(e) => Some(ErrorText(e))
      case None => w.generationRecord
  }

  /** The same up to the written version. */
  function ProductionThrow(c: Config, w: RoundWorld, looksBack: bool, base: string): Option<string> {
    if DraftThrow(c, w, looksBack, base).Some? then DraftThrow(c, w, looksBack, base)
    else if w.writtenId.Err? then Some(w.writtenId.error)
    else None
  }

  /** The same up to and including the experiment. */
  function EarlyThrow(c: Config, w: RoundWorld, looksBack: bool, base: string): Option<string> {
    if ProductionThrow(c, w, looksBack, base).Some? then ProductionThrow(c, w, looksBack, base)
    else if w.run.Err? then Some(w.run.error)
    else None
  }

  /** What each step of the round throws, in program order. */
  function Throws(c: Config, w: RoundWorld, looksBack: bool, base: string): seq<Option<string>> {
    var generation := if w.analysis.Ok? then GenerationError(base, c.promptVariables, w.analysis.value, w.replies, 0)
        else None;
    [if looksBack then w.previousResults else None,
     if w.analysis.Err? then Some(w.analysis.error) else None,
     if generation.Some? then Some(ErrorText(generation.value)) else None,
     w.generationRecord,
     if w.writtenId.Err? then Some(w.writtenId.error) else None,
     if w.run.Err? then Some(w.run.error) else None]
  }

  /** Up to the experiment the first step that throws gives the error; if none does there is none. */
  lemma FirstThrowCounts(c: Config, w: RoundWorld, looksBack: bool, base: string, k: nat)
    requires k <= 6 && forall j :: 0 <= j < k ==> Throws(c, w, looksBack, base)[j].None?
    ensures k == 6 ==> EarlyThrow(c, w, looksBack, base) == None
    ensures k < 6 && Throws(c, w, looksBack, base)[k].Some? ==>
              EarlyThrow(c, w, looksBack, base) == Throws(c, w, looksBack, base)[k]
  {
    hide GenerationError, ErrorText;
    var throws := Throws(c, w, looksBack, base);
    assert (k > 0 ==> throws[0].None?) && (k > 1 ==> throws[1].None?) && (k > 2 ==> throws[2].None?);
    assert (k > 3 ==> throws[3].None?) && (k > 4 ==> throws[4].None?) && (k > 5 ==> throws[5].None?);
  }

  /** The same for the round after the first n, started from what the log holds then. */
  function ThrowAfter(c: Config, s: Snapshot, log: Log, world: nat -> RoundWorld, n: nat): Option<string>
    requires n <= |log.rounds| && n <= |log.written|
  {
    EarlyThrow(c, world(n + 1), !Regressed(c, s, log.rounds, n), BestVersionAfter(c, s, log, n).body)
  }

  /** The body is one of the round's replies, as it came or with a patch appended. */
  ghost predicate Drafted(c: Config, w: RoundWorld, body: string) {
    exists k: nat :: k <= MAX_VARIABLE_RETRY_ATTEMPTS && DraftedFrom(c, w.replies(k), body)
  }

  ghost predicate DraftedFrom(c: Config, r: Reply, body: string) {
    r.Parsed? && (body == r.body || exists vs :: body == Patch(r.body, vs, c.language))
  }

  /** What was written and recorded is what the world answered, round by round. */
  ghost predicate FromWorld(c: Config, world: nat -> RoundWorld, log: Log) {
    && (forall i :: 0 <= i < |log.rounds| ==> RanAs(world(i + 1), log.rounds[i]))
    && (forall i :: 0 <= i < |log.written| ==> WrittenAs(c, world(i + 1), log.written[i]))
  }

  ghost predicate RanAs(w: RoundWorld, r: Round) {
    w.run == Ok(Run(r.metrics, r.results))
  }

  ghost predicate WrittenAs(c: Config, w: RoundWorld, v: Version) {
    w.writtenId == Ok(v.id) && Drafted(c, w, v.body)
  }

  /** A round adds at most one version and one record of its own. */
  ghost predicate AddsOwn(c: Config, w: RoundWorld, before: Log, after: Log) {
    && (after.rounds == before.rounds || exists r :: after.rounds == before.rounds + [r] && RanAs(w, r))
    && (after.written == before.written || exists v :: after.written == before.written + [v] && WrittenAs(c, w, v))
  }

  lemma OwnFromWorld(c: Config, world: nat -> RoundWorld, before: Log, after: Log)
    requires FromWorld(c, world, before) && |before.written| == |before.rounds|
    requires AddsOwn(c, world(|before.rounds| + 1), before, after)
    ensures FromWorld(c, world, after)
  {
    hide RanAs, WrittenAs;
  }

  /** What recording a round does to the state that Ready describes. */
  function Recorded(st: State, log: Log, version: Version, run: Run, round: Round, regressed: bool): State {
    State(if round.isBest then version else st.best,
          if round.isBest then run.metrics else st.bestMetrics,
          if round.isBest then run.results else st.bestResults,
          if regressed then Some(Pending(st.best, st.bestResults, st.bestMetrics, version, run.results, run.metrics))
              else None,
          log.(rounds := log.rounds + [round]))
  }

  /** The log after a version was written in a round that started ready. */
  ghost predicate Wrote(c: Config, s: Snapshot, st: State, log: Log, version: Version) {
    && LogOk(c, s, log)
    && log.rounds == st.log.rounds && log.history == st.log.history
    && log.written == st.log.written + [version] && log.parents == st.log.parents + [st.best]
  }

  lemma RecordedIsOk(c: Config, s: Snapshot, st: State, log: Log, version: Version, run: Run, round: Round)
    requires Ready(c, s, st) && Wrote(c, s, st, log, version)
    requires var d := DecideRoundOutcome(run.metrics, st.bestMetrics, c.goals);
             round == Round(|st.log.rounds| + 1, version.id, run.metrics, run.results, d.isBest, d.goalProgress)
    ensures
      var st' := Recorded(st, log, version, run, round, Better(st.bestMetrics, run.metrics, c.goals));
      && StateOk(c, s, st')
      && (st'.pending.Some? <==> Regressed(c, s, st'.log.rounds, |st'.log.rounds|))
      && (st'.pending.Some? ==>
          st'.best == st.best && st'.bestMetrics == st.bestMetrics && st'.bestResults == st.bestResults)
  {
    hide GeneratedFromBest, AnalysedRegressions, DecidedRight, AllUsable, Better, BestAfter, History,
      EvaluateGoals, PrimaryChange;
    RecordExtends(c, s, log, round);
    BestAfterAppend(c, s, log.rounds, round);
    BestVersionSame(c, s, st.log, log, |log.rounds|);
    BestVersionStep(c, s, log, round);
    BetterIsStrictWeakOrder(run.metrics, st.bestMetrics, run.metrics, c.goals);
    MirrorsStay(c, st.log, log, round);
  }

  lemma BestVersionSame(c: Config, s: Snapshot, before: Log, after: Log, n: nat)
    requires after.rounds == before.rounds && before.written <= after.written
    requires n <= |before.rounds| && n <= |before.written|
    ensures BestVersionAfter(c, s, after, n) == BestVersionAfter(c, s, before, n)
  {
    hide BestAfter;
  }

  lemma BestVersionStep(c: Config, s: Snapshot, log: Log, round: Round)
    requires |log.written| == |log.rounds| + 1
    ensures
      var n := |log.rounds|;
      BestVersionAfter(c, s, log.(rounds := log.rounds + [round]), n + 1)
      == if Better(round.metrics, BestMetricsAfter(c, s, log.rounds, n), c.goals) then log.written[n]
          else BestVersionAfter(c, s, log, n)
  {
    hide Better, BestAfter, BestMetricsAfter;
    BestAfterAppend(c, s, log.rounds, round);
  }

  lemma MirrorsStay(c: Config, before: Log, after: Log, round: Round)
    requires Shaped(before) && HistoryMirrors(c, before)
    requires Shaped(after.(rounds := after.rounds + [round]))
    requires after.rounds == before.rounds && after.history == before.history && before.parents <= after.parents
    ensures HistoryMirrors(c, after.(rounds := after.rounds + [round]))
  {
    hide ReadMetric, PrimaryChange;
    forall i | 0 <= i < |before.history|
      ensures PrimaryChange(c.goals, after.rounds + [round], i) == PrimaryChange(c.goals, before.rounds, i)
    {
      ChangeStays(c.goals, before.rounds, round, i);
    }
  }

  lemma ChangeStays(goals: seq<Goal>, rounds: seq<Round>, round: Round, i: nat)
    requires i < |rounds|
    ensures PrimaryChange(goals, rounds + [round], i) == PrimaryChange(goals, rounds, i)
  {
    hide ReadMetric;
  }

  lemma EntryHoldsChange(c: Config, log: Log, base: string)
    requires Shaped(log) && HistoryMirrors(c, log) && |log.rounds| == |log.history| + 1
    ensures
      var n := |log.history|;
      HistoryEntryFor(n + 1, log.rounds[n].metrics, log.rounds[n].isBest, base, c.goals, log.history)
      == HistoryEntry(n + 1, log.rounds[n].metrics, PrimaryChange(c.goals, log.rounds, n), log.rounds[n].isBest, base)
  {
    hide ReadMetric;
  }

  lemma LogOnlyState(c: Config, s: Snapshot, st: State, log: Log, version: Version)
    requires Ready(c, s, st) && Wrote(c, s, st, log, version)
    ensures StateOk(c, s, st.(log := log))
  {
    hide GeneratedFromBest, AnalysedRegressions, DecidedRight, AllUsable, BestAfter, History;
    BestVersionSame(c, s, st.log, log, |log.rounds|);
  }

  /** What the analysis of the coming round looks at: the pending regression, or the best. */
  method ToExamine(c: Config, s: Snapshot, st: State) returns (analysed: Tried)
    requires Ready(c, s, st)
    ensures analysed == Examined(c, s, st.log.rounds, st.log.written, st.best, |st.log.rounds|)
  {
    hide LogOk, HistoryMirrors, Regressed, BestMetricsAfter, BestResultsAfter, BestVersionAfter;
    var version := if st.pending.Some? then st.pending.value.regressed else st.best;
    var results := if st.pending.Some? then st.pending.value.regressedResults else st.bestResults;
    var metrics := if st.pending.Some? then st.pending.value.regressedMetrics else st.bestMetrics;
    return Tried(version, results, metrics);
  }

  /** Steps 2 to 4: read, analyse, and generate from the base. */
  method DraftBody(c: Config, w: RoundWorld, looksBack: bool, base: string) returns (r: Result<string, string>)
    ensures DraftThrow(c, w, looksBack, base) == if r.Err? then Some(r.error) else None
    ensures r.Ok? ==> Usable(r.value, base, c.promptVariables) && Drafted(c, w, r.value)
  {
    hide Usable, Fatal, OnlyLostPlaceholders, Patch, ErrorText, GenerationError;
    if looksBack && w.previousResults.Some? {
      return Err(w.previousResults.value);
    }
    if w.analysis.Err? {
      return Err(w.analysis.error);
    }
    var draft, calls := GenerateNextVersion(base, c.promptVariables, w.analysis.value, c.language, w.replies);
    if draft.Err? {
      return Err(ErrorText(draft.error));
    }
    if w.generationRecord.Some? {
      return Err(w.generationRecord.value);
    }
    assert DraftedFrom(c, w.replies(calls - 1), draft.value.body);
    return Ok(draft.value.body);
  }

  /** Steps 2 to 5: draft a body from the base and persist it. */
  method ProduceVersion(c: Config, s: Snapshot, st: State, analysed: Tried, w: RoundWorld, ports: Ports,
      ghost past: Past)
    returns (r: Result<Version, string>, log: Log)
    requires Ready(c, s, st)
    requires analysed == Examined(c, s, st.log.rounds, st.log.written, st.best, |st.log.rounds|)
    requires Told(ports, past, st.log)
    modifies ports`written
    ensures Told(ports, past, log)
    ensures r.Err? ==> log == st.log
    ensures r.Ok? ==> Wrote(c, s, st, log, r.value) && WrittenAs(c, w, r.value)
    ensures ProductionThrow(c, w, st.pending.None?, st.best.body) == if r.Err? then Some(r.error) else None
  {
    hide GeneratedFromBest, AnalysedRegressions, DecidedRight, AllUsable, Usable, HistoryMirrors, Better, BestAfter,
      DraftThrow, Drafted, Regressed, BestMetricsAfter, BestResultsAfter, Writes;
    log := st.log;
    var base := if st.pending.Some? then st.pending.value.base else st.best;
    var draft := DraftBody(c, w, st.pending.None?, base.body);
    if draft.Err? {
      return Err(draft.error), log;
    }
    if w.writtenId.Err? {
      return Err(w.writtenId.error), log;
    }
    var version := Version(w.writtenId.value, draft.value);
    ports.WritePromptVersion(base.id, version);
    WritesMore(log.written, log.parents, version, base);
    WriteExtends(c, s, st.log, version, base, analysed);
    log := log.(written := log.written + [version], parents := log.parents + [base],
        analysed := log.analysed + [analysed]);
    return Ok(version), log;
  }

  /** Steps 7 and 8 up to the goal check: update the best, remember a regression, record the round
      and extend the history. */
  method RecordRun(c: Config, s: Snapshot, st: State, log: Log, version: Version, run: Run, number: int,
      recordRound: Option<string>, ports: Ports, ghost past: Past)
    returns (failure: Option<string>, st': State)
    requires Ready(c, s, st) && Wrote(c, s, st, log, version) && number == |st.log.rounds| + 1
    requires Told(ports, past, log)
    modifies ports`rounds
    ensures Told(ports, past, st'.log)
    ensures StateOk(c, s, st') && failure == recordRound
    ensures failure.None? ==> Ready(c, s, st')
    ensures st'.log.written == log.written && st'.log.parents == log.parents
    ensures |st'.log.rounds| == number && st'.log.rounds[..number - 1] == st.log.rounds
    ensures st'.log.rounds[number - 1].metrics == run.metrics && st'.log.rounds[number - 1].results == run.results
  {
    hide GeneratedFromBest, AnalysedRegressions, DecidedRight, AllUsable, Usable, Better, BestAfter, History,
      EvaluateGoals, Regressed, PrimaryChange, HistoryEntryFor, Writes, BestMetricsAfter, BestResultsAfter,
      BestVersionAfter;
    var base := if st.pending.Some? then st.pending.value.base else st.best;
    var baseResults := if st.pending.Some? then st.pending.value.baseResults else st.bestResults;
    var baseMetrics := if st.pending.Some? then st.pending.value.baseMetrics else st.bestMetrics;

    var best, bestMetrics, bestResults := st.best, st.bestMetrics, st.bestResults;
    var isBest := IsBetterThan(run.metrics, bestMetrics, c.goals);
    if isBest {
      best, bestMetrics, bestResults := version, run.metrics, run.results;
    }
    var regressed := IsBetterThan(baseMetrics, run.metrics, c.goals);
    var pending := if regressed then Some(Pending(base, baseResults, baseMetrics, version, run.results, run.metrics))
        else None;
    var progress := EvaluateGoals(c.goals, bestMetrics);
    var round := Round(number, version.id, run.metrics, run.results, isBest, progress);
    RecordedIsOk(c, s, st, log, version, run, round);
    st' := State(best, bestMetrics, bestResults, pending, log.(rounds := log.rounds + [round]));
    ports.RecordRound(round);
    if recordRound.Some? {
      return recordRound, st';
    }
    var entry := HistoryEntryFor(number, run.metrics, isBest, base.id, c.goals, st'.log.history);
    EntryHoldsChange(c, st'.log, base.id);
    EntryMirrors(c, s, st', entry);
    st' := st'.(log := st'.log.(history := st'.log.history + [entry]));
    return None, st';
  }

  /** The try block of one round. On failure the variables are left as the throw found them:
      untouched before the experiment, updated when only recording failed. */
  method RunRound(c: Config, s: Snapshot, st: State, number: int, w: RoundWorld, ports: Ports, ghost past: Past)
    returns (failure: Option<string>, st': State)
    requires Ready(c, s, st) && number == |st.log.rounds| + 1 && Told(ports, past, st.log)
    modifies ports`written, ports`rounds
    ensures StateOk(c, s, st') && Told(ports, past, st'.log)
    ensures failure.None? ==> Ready(c, s, st') && |st'.log.rounds| == |st.log.rounds| + 1
    ensures st.log.rounds <= st'.log.rounds && st.log.written <= st'.log.written && AddsOwn(c, w, st.log, st'.log)
    ensures
      var early := EarlyThrow(c, w, st.pending.None?, st.best.body);
      && failure == (if early.Some? then early else w.recordRound)
      && |st'.log.rounds| == |st.log.rounds| + (if early.Some? then 0 else 1)
  {
    hide Ready, StateOk, LogOk, WrittenAs, ProductionThrow;
    var analysed := ToExamine(c, s, st);
    st' := st;
    var r, log := ProduceVersion(c, s, st, analysed, w, ports, past);
    if r.Err? {
      ReadyIsOk(c, s, st);
      return Some(r.error), st';
    }
    if w.run.Err? {
      LogOnlyState(c, s, st, log, r.value);
      st' := st.(log := log);
      return Some(w.run.error), st';
    }
    failure, st' := RecordRun(c, s, st, log, r.value, w.run.value, number, w.recordRound, ports, past);
    assert st'.log.rounds == st.log.rounds + [st'.log.rounds[number - 1]];
    assert RanAs(w, st'.log.rounds[number - 1]);
  }

  lemma ReadyIsOk(c: Config, s: Snapshot, st: State)
    requires Ready(c, s, st)
    ensures StateOk(c, s, st)
  {
  }

  lemma EntryMirrors(c: Config, s: Snapshot, st: State, entry: HistoryEntry)
    requires StateOk(c, s, st) && |st.log.rounds| == |st.log.history| + 1
    requires
      var n := |st.log.history|;
      var r := st.log.rounds[n];
      && entry.round == r.number && entry.metrics == r.metrics && entry.isBest == r.isBest
          && entry.baseVersionId == st.log.parents[n].id
      && entry.delta == PrimaryChange(c.goals, st.log.rounds, n)
    ensures StateOk(c, s, st.(log := st.log.(history := st.log.history + [entry])))
  {
    hide LogOk, BestAfter, BestMetricsAfter, BestResultsAfter, PrimaryChange;
    HistoryIsSeparate(c, s, st.log, st.log.history + [entry]);
  }

  /** Nothing that LogOk promises is about the history entries. */
  lemma HistoryIsSeparate(c: Config, s: Snapshot, log: Log, history: seq<HistoryEntry>)
    requires LogOk(c, s, log)
    ensures LogOk(c, s, log.(history := history))
  {
    hide Usable, BestAfter, BestMetricsAfter, BestResultsAfter, DecideRoundOutcome, Regressed;
    var log' := log.(history := history);
    forall i | 0 <= i < |log'.rounds| ensures RoundDecided(c, s, log', i) {
      assert RoundDecided(c, s, log, i);
    }
    forall i | 0 <= i < |log'.written| ensures log'.parents[i] == BestVersionAfter(c, s, log', i) {
      assert log.parents[i] == BestVersionAfter(c, s, log, i);
    }
  }

  // ---- the whole run ----

  function Flags(rounds: seq<Round>): (f: seq<bool>)
    ensures |f| == |rounds| && forall i :: 0 <= i < |f| ==> f[i] == rounds[i].isBest
  {
    seq(|rounds|, i requires 0 <= i < |rounds| => rounds[i].isBest)
  }

  /** How many rounds at the end were not best. */
  function TrailingNonBest(flags: seq<bool>): (n: nat)
    ensures n <= |flags|
  {
    if flags == [] || flags[|flags| - 1] then 0 else 1 + TrailingNonBest(flags[..|flags| - 1])
  }

  /** It is n exactly when the last n flags are down and the one before them, if any, is up. */
  lemma {:induction false} TrailingExactly(flags: seq<bool>, n: nat)
    requires n <= |flags|
    ensures TrailingNonBest(flags) == n
       <==> (forall i :: |flags| - n <= i < |flags| ==> !flags[i]) && (n < |flags| ==> flags[|flags| - n - 1])
  {
    if flags != [] && !flags[|flags| - 1] && n > 0 {
      var init := flags[..|flags| - 1];
      TrailingExactly(init, n - 1);
      assert forall i :: 0 <= i < |init| ==> init[i] == flags[i];
    }
  }

  /** computeNoBestStreak. */
  method ComputeNoBestStreak(history: seq<HistoryEntry>, ghost rounds: seq<Round>) returns (streak: nat)
    requires |history| == |rounds| && forall i :: 0 <= i < |history| ==> history[i].isBest == rounds[i].isBest
    ensures streak == TrailingNonBest(Flags(rounds))
  {
    streak := 0;
    ghost var flags := Flags(rounds);
    assert flags[..|flags|] == flags;
    for i := |history| downto 0
      invariant streak == |history| - i
      invariant TrailingNonBest(flags) == streak + TrailingNonBest(flags[..i])
    {
      if history[i].isBest {
        assert flags[..i + 1][i];
        return;
      }
      assert flags[..i + 1][..i] == flags[..i];
      streak := streak + 1;
    }
  }

  /** The n-th round ran and was recorded, and none of its steps threw. */
  ghost predicate Completed(c: Config, s: Snapshot, log: Log, world: nat -> RoundWorld, n: nat)
    requires 0 < n <= |log.rounds| && n <= |log.written|
  {
    Ran(c, s, log, world, n) && world(n).recordRound.None?
  }

  /** It ran: its signal let it start, and nothing threw up to the experiment. */
  ghost predicate Ran(c: Config, s: Snapshot, log: Log, world: nat -> RoundWorld, n: nat)
    requires 0 < n <= |log.rounds| && n <= |log.written|
  {
    world(n).signal == Proceed && ThrowAfter(c, s, log, world, n - 1) == None
  }

  /** The loop got past its n-th round: nothing up to then ended it. */
  ghost predicate Reached(c: Config, s: Snapshot, log: Log, world: nat -> RoundWorld, n: nat)
    requires n <= |log.rounds| && n <= |log.written|
  {
    && !AllGoalsMet(c.goals, History(s.lastMetrics, log.rounds)[n])
    && (n > 0 ==> c.goals != [] && Completed(c, s, log, world, n))
    && (n > 0 && c.stopAfterNoImprovementRounds > 0 ==>
          TrailingNonBest(Flags(log.rounds[..n])) < c.stopAfterNoImprovementRounds)
  }

  /** The reason is the first that applied: every earlier point of the run was no reason to stop. */
  ghost predicate StoppedRight(c: Config, s: Snapshot, world: nat -> RoundWorld, log: Log, reason: Reason)
    requires Shaped(log)
  {
    var n := |log.rounds|;
    && (n == 0 || n <= c.maxRounds)
    && (forall i :: 0 <= i < n ==> Reached(c, s, log, world, i))
    && match reason
       case GoalsMet =>
         if n == 0 then AllGoalsMet(c.goals, s.lastMetrics)
         else
           && Completed(c, s, log, world, n)
           && (c.goals == [] || (AllGoalsMet(c.goals, log.rounds[n - 1].metrics) && log.rounds[n - 1].isBest))
       case NoImprovement =>
         && n > 0 && Completed(c, s, log, world, n)
         && !AllGoalsMet(c.goals, History(s.lastMetrics, log.rounds)[n]) && c.goals != []
         && TrailingNonBest(Flags(log.rounds)) == c.stopAfterNoImprovementRounds > 0
       case MaxRounds => Reached(c, s, log, world, n) && n >= c.maxRounds
       case ControlStop => Reached(c, s, log, world, n) && n < c.maxRounds && world(n + 1).signal == StopSignal
       case ControlCancel => Reached(c, s, log, world, n) && n < c.maxRounds && world(n + 1).signal == CancelSignal
       case FatalError(e) =>
         || (Reached(c, s, log, world, n) && n < c.maxRounds && world(n + 1).signal == Proceed
             && ThrowAfter(c, s, log, world, n) == Some(e))
         || (n > 0 && Ran(c, s, log, world, n) && world(n).recordRound == Some(e))
  }

  ghost predicate Going(c: Config, s: Snapshot, st: State, world: nat -> RoundWorld) {
    && Ready(c, s, st) && FromWorld(c, world, st.log)
    && forall i :: 0 <= i <= |st.log.rounds| ==> Reached(c, s, st.log, world, i)
  }

  lemma BestAfterMore(c: Config, s: Snapshot, rounds: seq<Round>, more: seq<Round>, n: nat)
    requires rounds <= more && n <= |rounds|
    ensures BestAfter(c, s, more, n) == BestAfter(c, s, rounds, n)
    ensures BestMetricsAfter(c, s, more, n) == BestMetricsAfter(c, s, rounds, n)
    ensures Regressed(c, s, more, n) == Regressed(c, s, rounds, n)
  {
    hide Better, BestIndex;
    assert History(s.lastMetrics, more)[..n + 1] == History(s.lastMetrics, rounds)[..n + 1];
  }

  lemma ThrowPrefix(c: Config, s: Snapshot, log: Log, more: Log, world: nat -> RoundWorld, n: nat)
    requires log.rounds <= more.rounds && log.written <= more.written && n <= |log.rounds| && n <= |log.written|
    ensures ThrowAfter(c, s, more, world, n) == ThrowAfter(c, s, log, world, n)
  {
    hide BestAfter, BestMetricsAfter, EarlyThrow, Regressed;
    BestAfterMore(c, s, log.rounds, more.rounds, n);
  }

  lemma ReachedPrefix(c: Config, s: Snapshot, log: Log, more: Log, world: nat -> RoundWorld, n: nat)
    requires log.rounds <= more.rounds && log.written <= more.written && n <= |log.rounds| && n <= |log.written|
    requires Reached(c, s, log, world, n)
    ensures Reached(c, s, more, world, n)
  {
    hide ThrowAfter, AllGoalsMet, TrailingNonBest;
    assert more.rounds[..n] == log.rounds[..n];
    if n > 0 {
      ThrowPrefix(c, s, log, more, world, n - 1);
    }
  }

  /** While no goal-meeting round has been seen, the best so far misses a goal. */
  lemma BestStillMisses(c: Config, s: Snapshot, st: State, world: nat -> RoundWorld)
    requires Going(c, s, st, world)
    ensures !AllGoalsMet(c.goals, st.bestMetrics)
  {
    hide Better, BestIndex, GeneratedFromBest, AnalysedRegressions, DecidedRight, AllUsable, AllGoalsMet;
    var b := BestAfter(c, s, st.log.rounds, |st.log.rounds|);
    assert Reached(c, s, st.log, world, b);
  }

  /** What one completed round does to the reasons to stop. */
  lemma AfterRound(c: Config, s: Snapshot, before: State, after: State, world: nat -> RoundWorld)
    requires Going(c, s, before, world) && Ready(c, s, after) && FromWorld(c, world, after.log)
    requires before.log.rounds <= after.log.rounds && |after.log.rounds| == |before.log.rounds| + 1
    requires before.log.written <= after.log.written
    ensures
      var n := |after.log.rounds|;
      var last := after.log.rounds[n - 1];
      && (forall i :: 0 <= i < n ==> Reached(c, s, after.log, world, i))
      && History(s.lastMetrics, after.log.rounds)[n] == last.metrics
      && (EveryAchieved(EvaluateGoals(c.goals, after.bestMetrics))
          <==> c.goals == [] || AllGoalsMet(c.goals, last.metrics))
      && (AllGoalsMet(c.goals, last.metrics) ==> last.isBest)
      && TrailingNonBest(Flags(after.log.rounds)) <= TrailingNonBest(Flags(before.log.rounds)) + 1
  {
    hide Better, GeneratedFromBest, AnalysedRegressions, DecidedRight, AllUsable, BestAfter, Reached,
      HistoryMirrors, AllGoalsMet, EvaluateGoals, EveryAchieved;
    var n := |after.log.rounds|;
    var last := after.log.rounds[n - 1];
    StillReached(c, s, before, after, world);
    BestStillMisses(c, s, before, world);
    LastDecision(c, s, before, after);
    GoalsMetByTheRound(last.metrics, before.bestMetrics, c.goals);
    EveryIsMet(c.goals, after.bestMetrics);
    assert Flags(after.log.rounds)[..n - 1] == Flags(before.log.rounds);
  }

  lemma StillReached(c: Config, s: Snapshot, before: State, after: State, world: nat -> RoundWorld)
    requires Going(c, s, before, world) && Ready(c, s, after)
    requires before.log.rounds <= after.log.rounds && before.log.written <= after.log.written
    ensures Shaped(before.log) && Shaped(after.log)
    ensures forall i :: 0 <= i <= |before.log.rounds| ==> Reached(c, s, after.log, world, i)
  {
    hide GeneratedFromBest, AnalysedRegressions, DecidedRight, AllUsable, HistoryMirrors, Reached, Regressed,
      BestMetricsAfter, BestResultsAfter, BestVersionAfter, FromWorld;
    forall i | 0 <= i <= |before.log.rounds| ensures Reached(c, s, after.log, world, i) {
      ReachedPrefix(c, s, before.log, after.log, world, i);
    }
  }

  lemma EveryIsMet(goals: seq<Goal>, m: Metrics)
    ensures EveryAchieved(EvaluateGoals(goals, m)) <==> goals == [] || AllGoalsMet(goals, m)
  {
  }

  /** The last round was decided against the best before it. */
  lemma LastDecision(c: Config, s: Snapshot, before: State, after: State)
    requires StateOk(c, s, before) && StateOk(c, s, after)
    requires before.log.rounds <= after.log.rounds && |after.log.rounds| == |before.log.rounds| + 1
    ensures
      var last := after.log.rounds[|before.log.rounds|];
      var d := DecideRoundOutcome(last.metrics, before.bestMetrics, c.goals);
      last.isBest == d.isBest && after.bestMetrics == d.newBestMetrics
      && (d.goalsMet <==> AllGoalsMet(c.goals, after.bestMetrics))
  {
    hide Better, GeneratedFromBest, AnalysedRegressions, AllUsable, BestAfter, BestMetricsAfter,
      BestResultsAfter, BestVersionAfter, HistoryMirrors;
    var n := |before.log.rounds|;
    var last := after.log.rounds[n];
    assert RoundDecided(c, s, after.log, n);
    assert after.log.rounds == before.log.rounds + [last];
    BestAfterPrefix(c, s, before.log.rounds, last, n);
  }

  /** finalize: the final result is recorded, then returned, or what recording threw is. */
  method Finalize(reason: Reason, st: State, recordFinal: Option<string>, ports: Ports)
    returns (r: Result<Outcome, string>, ghost outcome: Outcome)
    modifies ports`finals
    ensures outcome == Outcome(reason, st.best, st.bestMetrics, st.log.rounds)
    ensures ports.finals == old(ports.finals) + [outcome]
    ensures r == if recordFinal.None? then Ok(outcome) else Err(recordFinal.value)
  {
    var o := Outcome(reason, st.best, st.bestMetrics, st.log.rounds);
    outcome := o;
    ports.RecordFinal(o);
    r := if recordFinal.Some? then Err(recordFinal.value) else Ok(o);
  }

  /** One round past its control check: run it, then decide whether the loop ends here. */
  method Advance(c: Config, s: Snapshot, st: State, number: int, world: nat -> RoundWorld, ports: Ports,
      ghost past: Past)
    returns (stop: Option<Reason>, st': State)
    requires Going(c, s, st, world) && number == |st.log.rounds| + 1 <= c.maxRounds
    requires world(number).signal == Proceed && Told(ports, past, st.log)
    modifies ports`written, ports`rounds
    ensures StateOk(c, s, st') && FromWorld(c, world, st'.log) && Told(ports, past, st'.log)
    ensures stop.None? ==> Going(c, s, st', world) && |st'.log.rounds| == number
    ensures stop.Some? ==> StoppedRight(c, s, world, st'.log, stop.value)
  {
    hide GeneratedFromBest, AnalysedRegressions, DecidedRight, AllUsable, Better, BestAfter, Regressed, TrailingNonBest,
      EvaluateGoals, History, Flags, PrimaryChange, EarlyThrow, ThrowAfter, AddsOwn, FromWorld, LogOk, HistoryMirrors,
      AllGoalsMet, EveryAchieved, BestVersionAfter;
    var failure;
    failure, st' := RunRound(c, s, st, number, world(number), ports, past);
    OwnFromWorld(c, world, st.log, st'.log);
    ThrowIs(c, s, st, st', world);
    if failure.Some? {
      FatalIsRight(c, s, st, st', world, failure.value);
      return Some(FatalError(failure.value)), st';
    }
    AfterRound(c, s, st, st', world);
    if EveryAchieved(EvaluateGoals(c.goals, st'.bestMetrics)) {
      return Some(GoalsMet), st';
    }
    MirrorsFlags(c, s, st');
    var streak := ComputeNoBestStreak(st'.log.history, st'.log.rounds);
    assert Reached(c, s, st.log, world, number - 1);
    if c.stopAfterNoImprovementRounds > 0 && streak >= c.stopAfterNoImprovementRounds {
      if number > 1 {
        StreakJustReached(c, s, st.log, world);
      }
      return Some(NoImprovement), st';
    }
    assert st'.log.rounds[..number] == st'.log.rounds;
    assert Reached(c, s, st'.log, world, number);
    return None, st';
  }

  /** What the round after st throws is read off the log, then and later. */
  lemma ThrowIs(c: Config, s: Snapshot, st: State, after: State, world: nat -> RoundWorld)
    requires Ready(c, s, st) && StateOk(c, s, after)
    requires st.log.rounds <= after.log.rounds && st.log.written <= after.log.written
    ensures Shaped(st.log) && Shaped(after.log)
    ensures
      var n := |st.log.rounds|;
      && ThrowAfter(c, s, st.log, world, n) == EarlyThrow(c, world(n + 1), st.pending.None?, st.best.body)
      && ThrowAfter(c, s, after.log, world, n) == ThrowAfter(c, s, st.log, world, n)
  {
    hide GeneratedFromBest, AnalysedRegressions, DecidedRight, AllUsable, HistoryMirrors, EarlyThrow, Regressed,
      BestVersionAfter;
    ThrowPrefix(c, s, st.log, after.log, world, |st.log.rounds|);
  }

  lemma MirrorsFlags(c: Config, s: Snapshot, st: State)
    requires Ready(c, s, st)
    ensures |st.log.history| == |st.log.rounds|
    ensures forall i :: 0 <= i < |st.log.history| ==> st.log.history[i].isBest == st.log.rounds[i].isBest
  {
    hide LogOk, PrimaryChange;
  }

  /** Before the round the streak was still below the limit, so now it equals it. */
  lemma StreakJustReached(c: Config, s: Snapshot, log: Log, world: nat -> RoundWorld)
    requires 0 < |log.rounds| <= |log.written| && c.stopAfterNoImprovementRounds > 0
    requires Reached(c, s, log, world, |log.rounds|)
    ensures TrailingNonBest(Flags(log.rounds)) < c.stopAfterNoImprovementRounds
  {
    hide ThrowAfter;
    assert log.rounds[..|log.rounds|] == log.rounds;
  }

  /** The run got as far as a round whose control signal could not be read. */
  ghost predicate SignalUnreadable(c: Config, s: Snapshot, world: nat -> RoundWorld, log: Log)
    requires Shaped(log)
  {
    && (forall i :: 0 <= i <= |log.rounds| ==> Reached(c, s, log, world, i))
    && |log.rounds| < c.maxRounds && world(|log.rounds| + 1).signal.ReadFailed?
  }

  /** A run with a right outcome is no such run. */
  lemma StoppedMeansReadable(c: Config, s: Snapshot, world: nat -> RoundWorld, log: Log, reason: Reason)
    requires Shaped(log) && StoppedRight(c, s, world, log, reason)
    ensures !SignalUnreadable(c, s, world, log)
  {
    hide AllGoalsMet, TrailingNonBest, ThrowAfter;
    assert log.rounds[..|log.rounds|] == log.rounds;
    if forall i :: 0 <= i <= |log.rounds| ==> Reached(c, s, log, world, i) {
      assert Reached(c, s, log, world, |log.rounds|);
    }
  }

  /** The ports saw each round, and each version with the id of its parent, after what they had seen before. */
  lemma ToldMeans(ports: Ports, past: Past, log: Log)
    requires Told(ports, past, log) && Shaped(log)
    ensures ports.rounds == past.rounds + log.rounds && |ports.written| == |past.written| + |log.written|
    ensures forall i :: 0 <= i < |ports.written| ==>
              var n := |past.written|;
              ports.written[i] == if i < n then past.written[i] else Write(log.parents[i - n].id, log.written[i - n])
  {
  }

  lemma NothingTold(ports: Ports)
    ensures Told(ports, Past(ports.written, ports.rounds), Log([], [], [], [], []))
  {
  }

  /** The outcome fits the log, and is what the caller gets unless recording it threw. */
  ghost predicate FinishedRight(c: Config, s: Snapshot, world: nat -> RoundWorld, recordFinal: Option<string>,
                                r: Result<Outcome, string>, log: Log, o: Outcome)
    requires LogOk(c, s, log)
  {
    && o.rounds == log.rounds && StoppedRight(c, s, world, log, o.reason)
    && o.bestMetrics == BestMetricsAfter(c, s, log.rounds, |log.rounds|)
    && o.best == BestVersionAfter(c, s, log, |log.rounds|)
    && r == if recordFinal.None? then Ok(o) else Err(recordFinal.value)
  }

  lemma FinishIsRight(c: Config, s: Snapshot, world: nat -> RoundWorld, recordFinal: Option<string>,
                      st: State, r: Result<Outcome, string>, o: Outcome, ports: Ports, past: Past)
    requires Told(ports, past, st.log)
    requires StateOk(c, s, st)
    requires o.best == st.best && o.bestMetrics == st.bestMetrics && o.rounds == st.log.rounds
    requires StoppedRight(c, s, world, st.log, o.reason)
    requires r == if recordFinal.None? then Ok(o) else Err(recordFinal.value)
    ensures LogOk(c, s, st.log) && HistoryMirrors(c, st.log)
    ensures FinishedRight(c, s, world, recordFinal, r, st.log, o)
    ensures !SignalUnreadable(c, s, world, st.log) && |st.log.parents| == |st.log.written|
    ensures ports.rounds == past.rounds + st.log.rounds && |ports.written| == |past.written| + |st.log.written|
    ensures forall i :: 0 <= i < |ports.written| ==>
              var n := |past.written|;
              ports.written[i] == if i < n then past.written[i]
                  else Write(st.log.parents[i - n].id, st.log.written[i - n])
  {
    ToldMeans(ports, past, st.log);
    hide Told;
    hide StoppedRight, BestAfter, PrimaryChange, SignalUnreadable, GeneratedFromBest, AnalysedRegressions,
      DecidedRight, AllUsable;
    StoppedMeansReadable(c, s, world, st.log, o.reason);
  }

  /** The optimization loop. Whatever the model and the ports answer: the log is right in every
      round; each version is written and each round recorded once; and the final result is recorded
      exactly once, with the best of everything recorded and the first reason that applied, also
      when recording it throws: the returns inside the try block are not awaited, so that throw does
      not come back to its catch. No final result is recorded if and only if the run reached a round
      whose control signal could not be read. */
  method RunIterationLoop(c: Config, s: Snapshot, world: nat -> RoundWorld, recordFinal: Option<string>, ports: Ports)
    returns (r: Result<Outcome, string>, log: Log, ghost finals: seq<Outcome>)
    modifies ports
    ensures LogOk(c, s, log) && HistoryMirrors(c, log) && FromWorld(c, world, log)
    ensures Told(ports, Past(old(ports.written), old(ports.rounds)), log)
    ensures ports.rounds == old(ports.rounds) + log.rounds
    ensures |log.parents| == |log.written| && |ports.written| == |old(ports.written)| + |log.written|
    ensures forall i :: 0 <= i < |ports.written| ==>
              var n := |old(ports.written)|;
              ports.written[i] == if i < n then old(ports.written)[i]
                  else Write(log.parents[i - n].id, log.written[i - n])
    ensures ports.finals == old(ports.finals) + finals
    ensures finals == [] <==> SignalUnreadable(c, s, world, log)
    ensures finals == [] ==> r == Err(world(|log.rounds| + 1).signal.error)
    ensures finals != [] ==> |finals| == 1 && FinishedRight(c, s, world, recordFinal, r, log, finals[0])
  {
    hide LogOk, HistoryMirrors, Ready, AllGoalsMet, Reached, BestMetricsAfter, BestResultsAfter,
      BestVersionAfter, History, FromWorld, FinishedRight, Told;
    ghost var past := Past(ports.written, ports.rounds);
    var st := State(s.base, s.lastMetrics, s.lastResults, None, Log([], [], [], [], []));
    ghost var o;
    StartIsReady(c, s, world);
    NothingTold(ports);
    if AllGoalsMet(c.goals, st.bestMetrics) {
      r, o := Finalize(GoalsMet, st, recordFinal, ports);
      FinishIsRight(c, s, world, recordFinal, st, r, o, ports, past);
      return r, st.log, [o];
    }
    StartReached(c, s, world);

    var number := 1;
    while number <= c.maxRounds
      invariant 1 <= number && number == |st.log.rounds| + 1
      invariant number == 1 || number <= c.maxRounds + 1
      invariant Shaped(st.log) && Going(c, s, st, world) && StateOk(c, s, st) && FromWorld(c, world, st.log)
      invariant Told(ports, past, st.log) && ports.finals == old(ports.finals)
    {
      assert Reached(c, s, st.log, world, number - 1);
      match world(number).signal {
        case CancelSignal =>
          r, o := Finalize(ControlCancel, st, recordFinal, ports);
          FinishIsRight(c, s, world, recordFinal, st, r, o, ports, past);
          return r, st.log, [o];
        case StopSignal =>
          r, o := Finalize(ControlStop, st, recordFinal, ports);
          FinishIsRight(c, s, world, recordFinal, st, r, o, ports, past);
          return r, st.log, [o];
        case ReadFailed(error) =>
          ToldMeans(ports, past, st.log);
          return Err(error), st.log, [];
        case Proceed =>
      }
      var stop;
      stop, st := Advance(c, s, st, number, world, ports, past);
      if stop.Some? {
        r, o := Finalize(stop.value, st, recordFinal, ports);
        FinishIsRight(c, s, world, recordFinal, st, r, o, ports, past);
        return r, st.log, [o];
      }
      GoingIsOk(c, s, st, world);
      number := number + 1;
    }
    assert Reached(c, s, st.log, world, number - 1);
    r, o := Finalize(MaxRounds, st, recordFinal, ports);
    FinishIsRight(c, s, world, recordFinal, st, r, o, ports, past);
    return r, st.log, [o];
  }

  lemma GoingIsOk(c: Config, s: Snapshot, st: State, world: nat -> RoundWorld)
    requires Going(c, s, st, world)
    ensures Shaped(st.log) && StateOk(c, s, st) && FromWorld(c, world, st.log)
  {
  }

  lemma StartIsReady(c: Config, s: Snapshot, world: nat -> RoundWorld)
    ensures Ready(c, s, State(s.base, s.lastMetrics, s.lastResults, None, Log([], [], [], [], [])))
    ensures StateOk(c, s, State(s.base, s.lastMetrics, s.lastResults, None, Log([], [], [], [], [])))
    ensures FromWorld(c, world, Log([], [], [], [], []))
  {
  }

  lemma StartReached(c: Config, s: Snapshot, world: nat -> RoundWorld)
    requires !AllGoalsMet(c.goals, s.lastMetrics)
    ensures Reached(c, s, Log([], [], [], [], []), world, 0)
  {
  }

  lemma FatalIsRight(c: Config, s: Snapshot, before: State, after: State, world: nat -> RoundWorld, e: string)
    requires Going(c, s, before, world) && |before.log.rounds| < c.maxRounds && StateOk(c, s, after)
    requires before.log.rounds <= after.log.rounds && before.log.written <= after.log.written
    requires Shaped(before.log) && Shaped(after.log)
    requires
      var n := |before.log.rounds|;
      var early := ThrowAfter(c, s, after.log, world, n);
      && world(n + 1).signal == Proceed
      && Some(e) == (if early.Some? then early else world(n + 1).recordRound)
      && |after.log.rounds| == n + (if early.Some? then 0 else 1)
    ensures StoppedRight(c, s, world, after.log, FatalError(e))
  {
    hide Reached, Ready, StateOk, FromWorld, ThrowAfter;
    forall i | 0 <= i <= |before.log.rounds| ensures Reached(c, s, after.log, world, i) {
      ReachedPrefix(c, s, before.log, after.log, world, i);
    }
  }

  // ---- what the log gives, for a whole run ----

  /** The final best is the earliest maximal element of the baseline and all recorded rounds; a round
      is flagged best exactly when it beats the baseline and every earlier round; and the progress
      recorded with it is that of the best up to then. */
  lemma BestOfTheRun(c: Config, s: Snapshot, log: Log, k: nat)
    requires LogOk(c, s, log) && k <= |log.rounds|
    ensures
      var h := History(s.lastMetrics, log.rounds);
      var b := BestAfter(c, s, log.rounds, |log.rounds|);
      && !Better(h[k], h[b], c.goals)
      && (k < b ==> Better(h[b], h[k], c.goals))
      && (k > 0 ==> (log.rounds[k - 1].isBest <==> BeatsAllBefore(h, k, c.goals)))
      && (k > 0 ==> log.rounds[k - 1].progress == EvaluateGoals(c.goals, h[BestAfter(c, s, log.rounds, k)]))
  {
    hide Better, GeneratedFromBest, AnalysedRegressions, AllUsable, EvaluateGoals;
    var h := History(s.lastMetrics, log.rounds);
    assert h[..|log.rounds| + 1] == h;
    BestIsEarliestMaximal(h, c.goals, k);
    if k > 0 {
      assert RoundDecided(c, s, log, k - 1);
      BeatsIff(h, k, c.goals);
    }
  }

  /** The best so far is the earliest maximum of the baseline and the rounds before. */
  lemma BestSoFar(c: Config, s: Snapshot, rounds: seq<Round>, i: nat, k: nat)
    requires k <= i <= |rounds|
    ensures
      var h, b := History(s.lastMetrics, rounds), BestAfter(c, s, rounds, i);
      !Better(h[k], h[b], c.goals) && (k < b ==> Better(h[b], h[k], c.goals))
  {
    hide Better, BestIndex;
    BestIsEarliestMaximal(History(s.lastMetrics, rounds)[..i + 1], c.goals, k);
  }

  /** Where each version of a run came from: the parent is the version of that best; analysed were the
      results of the last round if it was worse than the best, and those of the best otherwise. */
  lemma SourcesOfTheRun(c: Config, s: Snapshot, log: Log, i: nat)
    requires LogOk(c, s, log) && i < |log.written|
    ensures
      var h, b := History(s.lastMetrics, log.rounds), BestAfter(c, s, log.rounds, i);
      var best := Tried(if b == 0 then s.base else log.written[b - 1],
                        if b == 0 then s.lastResults else log.rounds[b - 1].results, h[b]);
      && log.parents[i] == best.version
      && log.analysed[i]
         == if i > 0 && Better(h[b], log.rounds[i - 1].metrics, c.goals)
            then Tried(log.written[i - 1], log.rounds[i - 1].results, log.rounds[i - 1].metrics) else best
  {
    hide Better, DecidedRight, AllUsable, BestAfter;
    assert log.parents[i] == BestVersionAfter(c, s, log, i);
  }

  /** Its placeholders are whitelisted, and every whitelisted one of the parent and of the base prompt is
      among them. */
  lemma PlaceholdersOfTheRun(c: Config, s: Snapshot, log: Log, i: nat)
    requires LogOk(c, s, log) && i < |log.written|
    ensures
      var names := Placeholders.Names(log.written[i].body);
      && (forall x :: x in names ==> x in c.promptVariables)
      && (forall x ::
            x in c.promptVariables
            && (x in Placeholders.Names(log.parents[i].body) || x in Placeholders.Names(s.base.body)) ==>
            x in names)
  {
    hide GeneratedFromBest, AnalysedRegressions, DecidedRight, Placeholders.Names;
  }

  ghost predicate BeatsAllBefore(h: seq<Metrics>, k: nat, goals: seq<Goal>)
    requires k < |h|
  {
    forall j :: 0 <= j < k ==> Better(h[k], h[j], goals)
  }

  lemma BeatsIff(h: seq<Metrics>, k: nat, goals: seq<Goal>)
    requires 0 < k < |h|
    ensures Better(h[k], h[BestIndex(h[..k], goals)], goals) <==> BeatsAllBefore(h, k, goals)
  {
    hide Better;
    ReplacesIffBeatsAll(h[..k], h[k], goals);
    assert forall j :: 0 <= j < k ==> h[..k][j] == h[j];
  }
}
