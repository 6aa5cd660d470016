/**
 Classification metrics computed on bucketed rows, against their meaning on single samples.
 */
module ClassificationMetrics {
  import opened Wrappers
  import opened OrderedSets
  import opened RealFacts
  import opened RecordKeys

  datatype RunStatus = Running | Success | Failed
  datatype Judgment = Correct | Incorrect | ParseError | JudgeError
  datatype Row = Row(decision: Option<string>, expected: Option<string>, judgment: Option<Judgment>, status: RunStatus,
                     count: nat, inputTokens: int, outputTokens: int, cost: real)

  datatype Counts = Counts(tp: nat, fp: nat, fn: nat, support: nat)
  datatype Entry = Entry(name: string, counts: Counts, precision: Option<real>, recall: Option<real>, f1: Option<real>)

  const NULL_LABEL := "__null__"

  function LabelOf(value: Option<string>): string {
    value.GetOr(NULL_LABEL)
  }

  // ---- quantities: sums of counts over the rows of a kind ----

  datatype Kind = TruePositive | FalsePositive | FalseNegative | Support
  datatype Quantity = Of(kind: Kind, name: string) | AllCorrect | AllIncorrect | AllJudged | Everything | Failures

  predicate Judged(r: Row, j: Judgment) {
    r.status == Success && r.judgment == Some(j)
  }

  /** Whether a row belongs to a quantity. */
  predicate BelongsTo(r: Row, q: Quantity) {
    match q
    case Of(TruePositive, l) => Judged(r, Correct) && LabelOf(r.decision) == l
    case Of(FalsePositive, l) => Judged(r, Incorrect) && LabelOf(r.decision) == l
    case Of(FalseNegative, l) => Judged(r, Incorrect) && LabelOf(r.expected) == l
    case Of(Support, l) =>
      (Judged(r, Correct) && LabelOf(r.decision) == l) || (Judged(r, Incorrect) && LabelOf(r.expected) == l)
    case AllCorrect => Judged(r, Correct)
    case AllIncorrect => Judged(r, Incorrect)
    case AllJudged => Judged(r, Correct) || Judged(r, Incorrect)
    case Everything => true
    case Failures =>
      r.status == Failed || r.judgment == Some(ParseError) || (r.judgment == Some(JudgeError) && r.expected.Some?)
  }

  function Sum(rows: seq<Row>, q: Quantity): nat {
    if rows == [] then 0
    else Sum(rows[..|rows| - 1], q) + (if BelongsTo(rows[|rows| - 1], q) then rows[|rows| - 1].count else 0)
  }

  lemma SumAppend(rows: seq<Row>, r: Row, q: Quantity)
    ensures Sum(rows + [r], q) == Sum(rows, q) + if BelongsTo(r, q) then r.count else 0
    ensures Sum([], q) == 0
  {
    hide BelongsTo;
    assert (rows + [r])[..|rows|] == rows;
  }

  lemma {:induction false} SumConcat(a: seq<Row>, b: seq<Row>, q: Quantity)
    ensures Sum(a + b, q) == Sum(a, q) + Sum(b, q)
  {
    hide BelongsTo;
    if b == [] {
      assert a + b == a;
    } else {
      var init, last := b[..|b| - 1], b[|b| - 1];
      assert a + b == (a + init) + [last];
      assert b == init + [last];
      SumConcat(a, init, q);
      SumAppend(a + init, last, q);
      SumAppend(init, last, q);
    }
  }

  /** Row order does not matter. */
  lemma {:induction false} SumIgnoresOrder(a: seq<Row>, b: seq<Row>, q: Quantity)
    requires multiset(a) == multiset(b)
    ensures Sum(a, q) == Sum(b, q)
  {
    if a == [] {
      assert |multiset(b)| == 0;
    } else {
      var i := TakeOut(a, b);
      var n, before, after := |a| - 1, b[..i], b[i + 1..];
      assert b == (before + [b[i]]) + after;
      SumIgnoresOrder(a[..n], before + after, q);
      SumConcat(before, after, q);
      SumConcat(before + [b[i]], after, q);
      SumAppend(before, b[i], q);
    }
  }

  // ---- bucketed rows against single samples ----

  /** One sample of a bucket. A bucket's token usage is not attributed to its samples. */
  function Sample(r: Row): Row {
    r.(count := 1, inputTokens := 0, outputTokens := 0, cost := 0.0)
  }

  function Copies(r: Row, n: nat): seq<Row> {
    if n == 0 then [] else Copies(r, n - 1) + [Sample(r)]
  }

  /** The rows as they were before aggregation: one per sample. */
  function Expand(rows: seq<Row>): seq<Row> {
    if rows == [] then [] else Expand(rows[..|rows| - 1]) + Copies(rows[|rows| - 1], rows[|rows| - 1].count)
  }

  lemma {:induction false} CopiesSum(r: Row, n: nat, q: Quantity)
    ensures Sum(Copies(r, n), q) == if BelongsTo(r, q) then n else 0
  {
    hide Sum, BelongsTo;
    SumAppend([], r, q);
    if n > 0 {
      CopiesSum(r, n - 1, q);
      SampleBelongs(r, q);
      SumAppend(Copies(r, n - 1), Sample(r), q);
    }
  }

  lemma SampleBelongs(r: Row, q: Quantity)
    ensures BelongsTo(Sample(r), q) == BelongsTo(r, q)
  {
  }

  /** Aggregating loses nothing: every quantity of the buckets is that of the single samples. */
  lemma {:induction false} BucketsMeanSamples(rows: seq<Row>, q: Quantity)
    ensures Sum(Expand(rows), q) == Sum(rows, q)
  {
    hide BelongsTo;
    if rows != [] {
      var init, last := rows[..|rows| - 1], rows[|rows| - 1];
      BucketsMeanSamples(init, q);
      CopiesSum(last, last.count, q);
      SumConcat(Expand(init), Copies(last, last.count), q);
    }
  }

  // ---- per-class confusion ----

  /** The counts a label must have. */
  function CountsOf(rows: seq<Row>, l: string): Counts {
    Counts(Sum(rows, Of(TruePositive, l)), Sum(rows, Of(FalsePositive, l)),
           Sum(rows, Of(FalseNegative, l)), Sum(rows, Of(Support, l)))
  }

  /** The labels a row brings up, in the order the code meets them. */
  function LabelsOfRow(r: Row): seq<string> {
    if Judged(r, Correct) then [LabelOf(r.decision)]
    else if Judged(r, Incorrect) then [LabelOf(r.decision), LabelOf(r.expected)]
    else []
  }

  function LabelStream(rows: seq<Row>): seq<string> {
    if rows == [] then [] else LabelStream(rows[..|rows| - 1]) + LabelsOfRow(rows[|rows| - 1])
  }

  lemma {:induction false} UnseenLabelIsZero(rows: seq<Row>, l: string)
    requires l !in LabelStream(rows)
    ensures CountsOf(rows, l) == Counts(0, 0, 0, 0)
  {
    if rows != [] {
      var init, last := rows[..|rows| - 1], rows[|rows| - 1];
      assert forall x :: x in LabelStream(init) || x in LabelsOfRow(last) ==> x in LabelStream(rows);
      UnseenLabelIsZero(init, l);
      assert LabelOf(last.decision) in LabelsOfRow(last) || (!Judged(last, Correct) && !Judged(last, Incorrect));
      assert LabelOf(last.expected) in LabelsOfRow(last) || !Judged(last, Incorrect);
    }
  }

  /** The insertion-ordered buckets. */
  datatype Buckets = Buckets(order: seq<string>, counts: map<string, Counts>)

  function Touch(b: Buckets, l: string): Buckets {
    if l in b.counts then b else Buckets(b.order + [l], b.counts[l := Counts(0, 0, 0, 0)])
  }

  function Add(b: Buckets, l: string, tp: nat, fp: nat, fn: nat, support: nat): Buckets {
    var t := Touch(b, l);
    var c := t.counts[l];
    t.(counts := t.counts[l := Counts(c.tp + tp, c.fp + fp, c.fn + fn, c.support + support)])
  }

  /** The buckets hold exactly the counts of the rows seen. */
  ghost predicate Tallies(b: Buckets, rows: seq<Row>) {
    && b.order == Distinct(LabelStream(rows))
    && (forall l :: l in b.counts <==> l in b.order)
    && (forall l :: l in b.counts ==> b.counts[l] == CountsOf(rows, l))
  }

  lemma CountsAppend(rows: seq<Row>, r: Row, l: string)
    ensures
      var c := CountsOf(rows, l);
      var d := CountsOf(rows + [r], l);
      && d.tp == c.tp + (if BelongsTo(r, Of(TruePositive, l)) then r.count else 0)
      && d.fp == c.fp + (if BelongsTo(r, Of(FalsePositive, l)) then r.count else 0)
      && d.fn == c.fn + (if BelongsTo(r, Of(FalseNegative, l)) then r.count else 0)
      && d.support == c.support + (if BelongsTo(r, Of(Support, l)) then r.count else 0)
  {
    SumAppend(rows, r, Of(TruePositive, l));
    SumAppend(rows, r, Of(FalsePositive, l));
    SumAppend(rows, r, Of(FalseNegative, l));
    SumAppend(rows, r, Of(Support, l));
  }

  lemma StreamAppend(rows: seq<Row>, r: Row)
    ensures LabelStream(rows + [r]) == LabelStream(rows) + LabelsOfRow(r)
  {
    assert (rows + [r])[..|rows|] == rows;
  }

  /** The loop body of computePerClassConfusion. */
  function Tally(b: Buckets, r: Row): Buckets {
    if r.status != Success || r.judgment == Some(ParseError) || r.judgment == Some(JudgeError) then b
    else if r.judgment == Some(Correct) then Add(b, LabelOf(r.decision), r.count, 0, 0, r.count)
    else if r.judgment == Some(Incorrect) then
      Add(Add(b, LabelOf(r.decision), 0, r.count, 0, 0), LabelOf(r.expected), 0, 0, r.count, r.count)
    else b
  }

  /** The labels after one row, in the order met. */
  lemma TallyOrders(b: Buckets, rows: seq<Row>, r: Row)
    requires Tallies(b, rows)
    ensures Tally(b, r).order == Distinct(LabelStream(rows + [r]))
    ensures forall l :: l in Tally(b, r).counts <==> l in Tally(b, r).order
  {
    hide Distinct, LabelStream, CountsOf;
    var labels := LabelStream(rows);
    StreamAppend(rows, r);
    DistinctAppend(labels, LabelOf(r.decision));
    DistinctAppend(labels + [LabelOf(r.decision)], LabelOf(r.expected));
    assert labels + [LabelOf(r.decision), LabelOf(r.expected)]
        == labels + [LabelOf(r.decision)] + [LabelOf(r.expected)];
    assert labels + [] == labels;
  }

  /** The counts after one row. */
  lemma TallyCounts(b: Buckets, rows: seq<Row>, r: Row, l: string)
    requires Tallies(b, rows) && l in Tally(b, r).counts
    ensures Tally(b, r).counts[l] == CountsOf(rows + [r], l)
  {
    hide Distinct, LabelStream, CountsOf;
    CountsAppend(rows, r, l);
    if l !in b.counts {
      UnseenLabelIsZero(rows, l);
    }
  }

  lemma TallyKeeps(b: Buckets, rows: seq<Row>, r: Row)
    requires Tallies(b, rows)
    ensures Tallies(Tally(b, r), rows + [r])
  {
    hide Distinct, LabelStream, CountsOf, Tally;
    TallyOrders(b, rows, r);
    forall l | l in Tally(b, r).counts ensures Tally(b, r).counts[l] == CountsOf(rows + [r], l) {
      TallyCounts(b, rows, r, l);
    }
  }

  /** Per label, tp + fn = support: the samples that count as having that label. */
  lemma {:induction false} SupportIsSum(rows: seq<Row>, l: string)
    ensures CountsOf(rows, l).support == CountsOf(rows, l).tp + CountsOf(rows, l).fn
  {
    if rows != [] {
      SupportIsSum(rows[..|rows| - 1], l);
    }
  }

  /** computePerClassConfusion: every label met except the null bucket and the prototype's name, once,
      in the order a record enumerates them, with exactly the counts that the rows give it. */
  method ComputePerClassConfusion(rows: seq<Row>) returns (labels: seq<string>, counts: map<string, Counts>)
    ensures labels == ClassLabels(rows)
    ensures forall l :: l in counts <==> l in labels
    ensures forall l :: l in labels ==>
        counts[l] == CountsOf(rows, l) && counts[l].tp + counts[l].fn == counts[l].support
  {
    hide Tallies, Tally, CountsOf, Listed, RecordOrder, LabelStream;
    LabelsAreClasses(rows);
    var b := Buckets([], map[]);
    NothingTallied();
    for i := 0 to |rows|
      invariant Tallies(b, rows[..i])
    {
      TallyKeeps(b, rows[..i], rows[i]);
      assert rows[..i + 1] == rows[..i] + [rows[i]];
      b := Tally(b, rows[i]);
    }
    assert rows[..|rows|] == rows;
    TalliesMeans(b, rows);
    labels := RecordOrder(KeepIf(b.order, l => Listed(l)));
    counts := map l | l in b.counts && Listed(l) :: b.counts[l];
    forall l | l in labels ensures CountsOf(rows, l).tp + CountsOf(rows, l).fn == CountsOf(rows, l).support {
      SupportIsSum(rows, l);
    }
  }

  lemma NothingTallied()
    ensures Tallies(Buckets([], map[]), [])
  {
  }

  lemma TalliesMeans(b: Buckets, rows: seq<Row>)
    requires Tallies(b, rows)
    ensures b.order == Distinct(LabelStream(rows))
    ensures forall l :: l in b.counts <==> l in b.order
    ensures forall l :: l in b.counts ==> b.counts[l] == CountsOf(rows, l)
  {
  }

  /** The labels that become properties of the returned record. */
  predicate Listed(l: string) {
    l != NULL_LABEL && l != PROTO
  }

  function ClassLabels(rows: seq<Row>): seq<string> {
    RecordOrder(KeepIf(Distinct(LabelStream(rows)), l => Listed(l)))
  }

  // ---- conservation ----

  /** The total of one kind over a list of labels. */
  function Total(labels: seq<string>, kind: Kind, rows: seq<Row>): nat {
    if labels == [] then 0
    else Total(labels[..|labels| - 1], kind, rows) + Sum(rows, Of(kind, labels[|labels| - 1]))
  }

  function KindLabel(kind: Kind, r: Row): string {
    if kind == FalseNegative || (kind == Support && !Judged(r, Correct)) then LabelOf(r.expected)
    else LabelOf(r.decision)
  }

  function WholeOf(kind: Kind): Quantity {
    if kind == TruePositive then AllCorrect else if kind == Support then AllJudged else AllIncorrect
  }

  lemma {:induction false} TotalAppend(labels: seq<string>, kind: Kind, rows: seq<Row>, r: Row)
    requires Unique(labels)
    ensures Total(labels, kind, rows + [r])
         == Total(labels, kind, rows) +
            if BelongsTo(r, WholeOf(kind)) && KindLabel(kind, r) in labels then r.count else 0
  {
    if labels != [] {
      var init, last := labels[..|labels| - 1], labels[|labels| - 1];
      assert labels == init + [last];
      TotalAppend(init, kind, rows, r);
      SumAppend(rows, r, Of(kind, last));
      assert last !in init;
    }
  }

  lemma {:induction false} TotalOfNothing(labels: seq<string>, kind: Kind)
    ensures Total(labels, kind, []) == 0
  {
    if labels != [] {
      TotalOfNothing(labels[..|labels| - 1], kind);
    }
  }

  lemma {:induction false} TotalCoversRows(labels: seq<string>, kind: Kind, rows: seq<Row>)
    requires Unique(labels) && forall l :: l in LabelStream(rows) ==> l in labels
    ensures Total(labels, kind, rows) == Sum(rows, WholeOf(kind))
  {
    if rows == [] {
      TotalOfNothing(labels, kind);
    } else {
      var init, last := rows[..|rows| - 1], rows[|rows| - 1];
      assert rows == init + [last];
      StreamAppend(init, last);
      TotalCoversRows(labels, kind, init);
      TotalAppend(labels, kind, init, last);
      SumAppend(init, last, WholeOf(kind));
      if BelongsTo(last, WholeOf(kind)) {
        assert KindLabel(kind, last) in LabelsOfRow(last);
      }
    }
  }

  /** Over all buckets, the null one included: true positives sum to the correct count, and
      false positives and false negatives both sum to the incorrect count, and supports to all judged. */
  lemma ConfusionConserves(rows: seq<Row>)
    ensures
      var labels := Distinct(LabelStream(rows));
      && Total(labels, TruePositive, rows) == Sum(rows, AllCorrect)
      && Total(labels, FalsePositive, rows) == Total(labels, FalseNegative, rows) == Sum(rows, AllIncorrect)
      && Total(labels, Support, rows) == Sum(rows, AllJudged)
  {
    hide Distinct, LabelStream;
    TotalCoversRows(Distinct(LabelStream(rows)), TruePositive, rows);
    TotalCoversRows(Distinct(LabelStream(rows)), FalsePositive, rows);
    TotalCoversRows(Distinct(LabelStream(rows)), FalseNegative, rows);
    TotalCoversRows(Distinct(LabelStream(rows)), Support, rows);
  }

  // ---- precision, recall, F1 ----

  function Ratio(part: nat, whole: nat): (r: Option<real>)
    requires part <= whole
  {
    if whole == 0 then None else Some(Over(part as real, whole as real))
  }

  function Precision(c: Counts): Option<real> { Ratio(c.tp, c.tp + c.fp) }
  function Recall(c: Counts): Option<real> { Ratio(c.tp, c.tp + c.fn) }

  /** The per-entry formula of computeF1. */
  function F1(precision: Option<real>, recall: Option<real>): Option<real> {
    if precision.None? || recall.None? || precision.value + recall.value == 0.0 then
      (if precision == Some(0.0) && recall == Some(0.0) then Some(0.0) else None)
    else Some(Over(Times(Times(2.0, precision.value), recall.value), precision.value + recall.value))
  }

  lemma RatioInUnit(part: nat, whole: nat)
    requires part <= whole && whole > 0
    ensures 0.0 <= Ratio(part, whole).value <= 1.0
    ensures Times(Ratio(part, whole).value, whole as real) == part as real
    ensures Ratio(part, whole).value == 0.0 <==> part == 0
  {
    hide Times, Over;
    OverMonotone(part as real, whole as real, whole as real, whole as real);
    OverTimes(part as real, whole as real);
    assert Over(whole as real, whole as real) == 1.0 by { SelfRatio(whole as real); }
    TimesOne(whole as real);
    if part == 0 {
      ZeroRatio(whole as real);
    }
  }

  lemma SelfRatio(a: real)
    requires a != 0.0
    ensures Over(a, a) == 1.0
  {
  }

  lemma ZeroRatio(a: real)
    requires a != 0.0
    ensures Over(0.0, a) == 0.0
  {
  }

  lemma CrossMultiply(a: real, b: real, c: real, d: real)
    requires b != 0.0 && d != 0.0 && Times(a, d) == Times(c, b)
    ensures Over(a, b) == Over(c, d)
  {
    var q := Over(a, b);
    assert a == q * b;
    assert (q * d - c) * b == 0.0;
    assert q * d == c;
  }

  /** p·b = a and r·c = a make 2pr/(p+r) the same fraction as 2a/(b+c). */
  lemma HarmonicMean(p: real, r: real, a: real, b: real, c: real)
    requires Times(p, b) == a && Times(r, c) == a
    ensures Times(Times(Times(2.0, p), r), b + c) == Times(Times(2.0, a), p + r)
  {
    assert p * r * b == a * r;
    assert p * r * c == a * p;
  }

  /** F1 is present exactly when both of its parts are, equals 2tp/(2tp + fp + fn), and lies in
      the unit interval. */
  lemma F1IsTheHarmonicMean(c: Counts)
    ensures F1(Precision(c), Recall(c)).Some? <==> c.tp + c.fp > 0 && c.tp + c.fn > 0
    ensures c.tp + c.fp > 0 && c.tp + c.fn > 0 ==>
              F1(Precision(c), Recall(c)) == Ratio(2 * c.tp, 2 * c.tp + c.fp + c.fn)
              && 0.0 <= F1(Precision(c), Recall(c)).value <= 1.0
  {
    hide Times, Over;
    if c.tp + c.fp > 0 && c.tp + c.fn > 0 {
      RatioInUnit(c.tp, c.tp + c.fp);
      RatioInUnit(c.tp, c.tp + c.fn);
      RatioInUnit(2 * c.tp, 2 * c.tp + c.fp + c.fn);
      var p, r := Precision(c).value, Recall(c).value;
      var a, b, d := c.tp as real, (c.tp + c.fp) as real, (c.tp + c.fn) as real;
      HarmonicMean(p, r, a, b, d);
      assert (2 * c.tp + c.fp + c.fn) as real == b + d;
      assert Times(2.0, a) == (2 * c.tp) as real by { Doubled(c.tp); }
      if c.tp > 0 {
        CrossMultiply(Times(Times(2.0, p), r), p + r, (2 * c.tp) as real, b + d);
      }
    }
  }

  lemma Doubled(n: nat)
    ensures Times(2.0, n as real) == (2 * n) as real
  {
  }

  // ---- macro averages ----

  datatype Measure = PrecisionOf | RecallOf | F1Of

  function Measured(m: Measure, c: Counts): Option<real> {
    match m
    case PrecisionOf => Precision(c)
    case RecallOf => Recall(c)
    case F1Of => F1(Precision(c), Recall(c))
  }

  /** Sum and number of the measures that are present. */
  function MacroParts(m: Measure, rows: seq<Row>, labels: seq<string>): (real, nat) {
    if labels == [] then (0.0, 0)
    else
      var (sum, n) := MacroParts(m, rows, labels[..|labels| - 1]);
      match Measured(m, CountsOf(rows, labels[|labels| - 1]))
      case None => (sum, n)
      case Some(v) => (sum + v, n + 1)
  }

  function Macro(m: Measure, rows: seq<Row>): Option<real> {
    var (sum, n) := MacroParts(m, rows, ClassLabels(rows));
    if n == 0 then None else Some(Over(sum, n as real))
  }

  lemma PartsAppend(m: Measure, rows: seq<Row>, labels: seq<string>, l: string)
    ensures MacroParts(m, rows, labels + [l])
         == match Measured(m, CountsOf(rows, l))
            case None => MacroParts(m, rows, labels)
            case Some(v) => (MacroParts(m, rows, labels).0 + v, MacroParts(m, rows, labels).1 + 1)
    ensures MacroParts(m, rows, []) == (0.0, 0)
  {
    hide Measured, CountsOf;
    assert (labels + [l])[..|labels|] == labels;
  }

  lemma {:induction false} PartsConcat(m: Measure, rows: seq<Row>, a: seq<string>, b: seq<string>)
    ensures MacroParts(m, rows, a + b).0 == MacroParts(m, rows, a).0 + MacroParts(m, rows, b).0
    ensures MacroParts(m, rows, a + b).1 == MacroParts(m, rows, a).1 + MacroParts(m, rows, b).1
  {
    hide Measured, CountsOf;
    if b == [] {
      assert a + b == a;
    } else {
      assert (a + b)[..|a + b| - 1] == a + b[..|b| - 1];
      PartsConcat(m, rows, a, b[..|b| - 1]);
    }
  }

  lemma {:induction false} PartsIgnoreOrder(m: Measure, rows: seq<Row>, rows': seq<Row>, a: seq<string>, b: seq<string>)
    requires multiset(a) == multiset(b) && forall l :: CountsOf(rows, l) == CountsOf(rows', l)
    ensures MacroParts(m, rows, a) == MacroParts(m, rows', b)
  {
    hide Measured, CountsOf;
    if a == [] {
      assert |multiset(b)| == 0;
    } else {
      hide MacroParts;
      var i := TakeOut(a, b);
      var n := |a| - 1;
      PartsIgnoreOrder(m, rows, rows', a[..n], b[..i] + b[i + 1..]);
      assert a == a[..n] + [a[n]];
      PartsConcat(m, rows, a[..n], [a[n]]);
      PartsWithout(m, rows', b, i);
      PartOfOne(m, rows, rows', a[n]);
    }
  }

  lemma PartsWithout(m: Measure, rows: seq<Row>, b: seq<string>, i: nat)
    requires i < |b|
    ensures MacroParts(m, rows, b).0 == MacroParts(m, rows, b[..i] + b[i + 1..]).0 + MacroParts(m, rows, [b[i]]).0
    ensures MacroParts(m, rows, b).1 == MacroParts(m, rows, b[..i] + b[i + 1..]).1 + MacroParts(m, rows, [b[i]]).1
  {
    hide MacroParts;
    var before, after := b[..i], b[i + 1..];
    assert b == before + ([b[i]] + after);
    PartsConcat(m, rows, before, after);
    PartsConcat(m, rows, before, [b[i]] + after);
    PartsConcat(m, rows, [b[i]], after);
  }

  lemma PartOfOne(m: Measure, rows: seq<Row>, rows': seq<Row>, l: string)
    requires CountsOf(rows, l) == CountsOf(rows', l)
    ensures MacroParts(m, rows, [l]) == MacroParts(m, rows', [l])
  {
    hide Measured, CountsOf;
  }

  const NOTHING := Counts(0, 0, 0, 0)

  /** The labels that some sample counts for. */
  function Counted(rows: seq<Row>, labels: seq<string>): (r: seq<string>)
    ensures forall l :: l in r <==> l in labels && CountsOf(rows, l) != NOTHING
    ensures Unique(labels) ==> Unique(r)
  {
    if labels == [] then []
    else
      var n := |labels| - 1;
      assert labels == labels[..n] + [labels[n]];
      assert Unique(labels) ==> labels[n] !in labels[..n];
      Counted(rows, labels[..n]) + (if CountsOf(rows, labels[n]) == NOTHING then [] else [labels[n]])
  }

  lemma NothingIsUnmeasured(m: Measure)
    ensures Measured(m, NOTHING) == None
  {
  }

  lemma CountedAppend(rows: seq<Row>, labels: seq<string>, l: string)
    ensures Counted(rows, labels + [l])
         == if CountsOf(rows, l) == NOTHING then Counted(rows, labels) else Counted(rows, labels) + [l]
    ensures Counted(rows, []) == []
  {
    hide CountsOf;
    assert (labels + [l])[..|labels|] == labels;
  }

  /** A label that no sample counts for does not weigh on the averages. */
  lemma {:induction false} PartsOfCounted(m: Measure, rows: seq<Row>, labels: seq<string>)
    ensures MacroParts(m, rows, labels) == MacroParts(m, rows, Counted(rows, labels))
  {
    hide Measured, CountsOf, MacroParts, Counted;
    if labels == [] {
      CountedAppend(rows, [], NULL_LABEL);
    } else {
      var init, last := labels[..|labels| - 1], labels[|labels| - 1];
      assert labels == init + [last];
      PartsOfCounted(m, rows, init);
      CountedAppend(rows, init, last);
      PartsAppend(m, rows, init, last);
      if CountsOf(rows, last) == NOTHING {
        NothingIsUnmeasured(m);
      } else {
        PartsAppend(m, rows, Counted(rows, init), last);
      }
    }
  }

  ghost predicate SameCountsEverywhere(a: seq<Row>, b: seq<Row>) {
    forall l :: CountsOf(a, l) == CountsOf(b, l)
  }

  lemma CountedLabels(rows: seq<Row>, l: string)
    ensures CountsOf(rows, l) != NOTHING && Listed(l) ==> l in ClassLabels(rows)
  {
    hide CountsOf, Distinct, LabelStream, ClassLabels, Listed;
    LabelsAreClasses(rows);
    if l !in LabelStream(rows) {
      UnseenLabelIsZero(rows, l);
    }
  }

  lemma LabelsAreClasses(rows: seq<Row>)
    ensures Unique(ClassLabels(rows))
    ensures forall l :: l in ClassLabels(rows) <==> l in LabelStream(rows) && Listed(l)
  {
    hide LabelStream, RecordOrder, Listed;
    RecordOrderKeeps(KeepIf(Distinct(LabelStream(rows)), l => Listed(l)));
  }

  /** The averages depend on nothing but the counts of each label. */
  lemma MacroDependsOnCounts(m: Measure, a: seq<Row>, b: seq<Row>)
    requires SameCountsEverywhere(a, b)
    ensures Macro(m, a) == Macro(m, b)
  {
    hide MacroParts, CountsOf, ClassLabels, Measured;
    var x, y := Counted(a, ClassLabels(a)), Counted(b, ClassLabels(b));
    LabelsAreClasses(a);
    LabelsAreClasses(b);
    forall l ensures l in x <==> l in y {
      CountedLabels(a, l);
      CountedLabels(b, l);
    }
    UniquePermutes(x, y);
    PartsOfCounted(m, a, ClassLabels(a));
    PartsOfCounted(m, b, ClassLabels(b));
    PartsIgnoreOrder(m, a, b, x, y);
  }

  /** No average depends on the order of the rows, as real numbers. */
  lemma MacroIgnoresRowOrder(m: Measure, a: seq<Row>, b: seq<Row>)
    requires multiset(a) == multiset(b)
    ensures Macro(m, a) == Macro(m, b)
  {
    hide CountsOf, Macro;
    forall l ensures CountsOf(a, l) == CountsOf(b, l) {
      SameCounts(a, b, l);
    }
    MacroDependsOnCounts(m, a, b);
  }

  lemma SamplesCountTheSame(rows: seq<Row>)
    ensures SameCountsEverywhere(Expand(rows), rows)
  {
    hide Sum, Expand;
    forall l ensures CountsOf(Expand(rows), l) == CountsOf(rows, l) {
      BucketsMeanSamples(rows, Of(TruePositive, l));
      BucketsMeanSamples(rows, Of(FalsePositive, l));
      BucketsMeanSamples(rows, Of(FalseNegative, l));
      BucketsMeanSamples(rows, Of(Support, l));
    }
  }

  /** The averages of bucketed rows are those of the single samples, although a bucket of count
      zero brings up a label that no sample has. */
  lemma MacroMeansSamples(m: Measure, rows: seq<Row>)
    ensures Macro(m, Expand(rows)) == Macro(m, rows)
  {
    hide Macro, Expand;
    SamplesCountTheSame(rows);
    MacroDependsOnCounts(m, Expand(rows), rows);
  }

  lemma SameCounts(a: seq<Row>, b: seq<Row>, l: string)
    requires multiset(a) == multiset(b)
    ensures CountsOf(a, l) == CountsOf(b, l)
  {
    hide Sum;
    SumIgnoresOrder(a, b, Of(TruePositive, l));
    SumIgnoresOrder(a, b, Of(FalsePositive, l));
    SumIgnoresOrder(a, b, Of(FalseNegative, l));
    SumIgnoresOrder(a, b, Of(Support, l));
  }

  // ---- computeClassificationMetrics ----

  datatype Report = Report(total: nat, correct: nat, failed: nat, accuracy: Option<real>,
                           macroPrecision: Option<real>, macroRecall: Option<real>, macroF1: Option<real>,
                           perClass: seq<Entry>, inputTokens: int, outputTokens: int, cost: real)

  /** What the report of some rows must say. */
  ghost predicate ReportFor(report: Report, rows: seq<Row>) {
    && report.total == Sum(rows, Everything) && report.correct == Sum(rows, AllCorrect) <= report.total
    && report.failed == Sum(rows, Failures) && report.accuracy == Ratio(report.correct, report.total)
    && report.macroPrecision == Macro(PrecisionOf, rows)
    && report.macroRecall == Macro(RecallOf, rows) && report.macroF1 == Macro(F1Of, rows)
    && EntriesFor(report.perClass, rows)
    && (report.inputTokens, report.outputTokens, report.cost) == Usage(rows)
  }

  /** One entry per class, in the order the classes were met. */
  ghost predicate EntriesFor(entries: seq<Entry>, rows: seq<Row>) {
    && |entries| == |ClassLabels(rows)|
    && forall i :: 0 <= i < |entries| ==> EntryFor(entries[i], rows, ClassLabels(rows)[i])
  }

  ghost predicate EntryFor(e: Entry, rows: seq<Row>, l: string) {
    && e.name == l && e.counts == CountsOf(rows, l)
    && e.precision == Precision(e.counts) && e.recall == Recall(e.counts) && e.f1 == F1(e.precision, e.recall)
  }

  /** The tokens and the cost of all rows. */
  function Usage(rows: seq<Row>): (int, int, real) {
    if rows == [] then (0, 0, 0.0)
    else
      var (input, output, cost) := Usage(rows[..|rows| - 1]);
      var last := rows[|rows| - 1];
      (input + last.inputTokens, output + last.outputTokens, cost + last.cost)
  }

  lemma EntriesCarryOver(a: seq<Row>, b: seq<Row>, x: seq<Entry>, y: seq<Entry>, e: Entry)
    requires SameCountsEverywhere(a, b) && EntriesFor(x, a) && EntriesFor(y, b)
    requires e in x && e.counts != NOTHING
    ensures e in y
  {
    hide CountsOf, ClassLabels, Precision, Recall, F1;
    var i :| 0 <= i < |x| && x[i] == e;
    assert EntryFor(x[i], a, ClassLabels(a)[i]);
    LabelsAreClasses(a);
    assert e.name in ClassLabels(a);
    CountedLabels(b, e.name);
    var j :| 0 <= j < |ClassLabels(b)| && ClassLabels(b)[j] == e.name;
    assert EntryFor(y[j], b, e.name);
    assert y[j] == e;
  }

  /** Apart from token usage and cost, the report of bucketed rows is that of the single samples:
      the same totals, accuracy and averages, and the same entry for every label that some sample
      counts for. */
  lemma ReportMeansSamples(rows: seq<Row>, bucketed: Report, single: Report)
    requires ReportFor(bucketed, rows) && ReportFor(single, Expand(rows))
    ensures bucketed.total == single.total && bucketed.correct == single.correct && bucketed.failed == single.failed
    ensures bucketed.accuracy == single.accuracy
    ensures bucketed.macroPrecision == single.macroPrecision && bucketed.macroRecall == single.macroRecall
    ensures bucketed.macroF1 == single.macroF1
    ensures forall e: Entry :: e.counts != NOTHING ==> (e in bucketed.perClass <==> e in single.perClass)
  {
    hide Sum, Macro, Expand, EntriesFor, Usage, Ratio;
    BucketsMeanSamples(rows, Everything);
    BucketsMeanSamples(rows, AllCorrect);
    BucketsMeanSamples(rows, Failures);
    MacroMeansSamples(PrecisionOf, rows);
    MacroMeansSamples(RecallOf, rows);
    MacroMeansSamples(F1Of, rows);
    SamplesCountTheSame(rows);
    SamePerClass(rows, Expand(rows), bucketed.perClass, single.perClass);
  }

  lemma SamePerClass(a: seq<Row>, b: seq<Row>, x: seq<Entry>, y: seq<Entry>)
    requires SameCountsEverywhere(b, a) && EntriesFor(x, a) && EntriesFor(y, b)
    ensures forall e: Entry :: e.counts != NOTHING ==> (e in x <==> e in y)
  {
    hide EntriesFor, CountsOf;
    forall e: Entry | e.counts != NOTHING ensures e in x <==> e in y {
      if e in x {
        EntriesCarryOver(a, b, x, y, e);
      }
      if e in y {
        EntriesCarryOver(b, a, y, x, e);
      }
    }
  }

  /** computeAccuracy. */
  method ComputeAccuracy(rows: seq<Row>) returns (accuracy: Option<real>, correct: nat, total: nat)
    ensures total == Sum(rows, Everything) && correct == Sum(rows, AllCorrect) <= total
    ensures accuracy == Ratio(correct, total)
  {
    correct, total := 0, 0;
    for i := 0 to |rows|
      invariant total == Sum(rows[..i], Everything) && correct == Sum(rows[..i], AllCorrect) <= total
    {
      assert rows[..i + 1] == rows[..i] + [rows[i]];
      SumAppend(rows[..i], rows[i], Everything);
      SumAppend(rows[..i], rows[i], AllCorrect);
      total := total + rows[i].count;
      if rows[i].status == Success && rows[i].judgment == Some(Correct) {
        correct := correct + rows[i].count;
      }
    }
    assert rows[..|rows|] == rows;
    accuracy := Ratio(correct, total);
  }

  /** One macro average over the entries, as the two compute functions take it. */
  method Average(m: Measure, rows: seq<Row>, labels: seq<string>, counts: map<string, Counts>)
      returns (average: Option<real>)
    requires labels == ClassLabels(rows)
    requires forall l :: l in labels ==> l in counts && counts[l] == CountsOf(rows, l)
    ensures average == Macro(m, rows)
  {
    hide Measured, CountsOf, ClassLabels, MacroParts;
    var sum, n := 0.0, 0;
    PartsAppend(m, rows, [], "");
    for i := 0 to |labels|
      invariant (sum, n) == MacroParts(m, rows, labels[..i])
    {
      assert labels[..i + 1] == labels[..i] + [labels[i]];
      PartsAppend(m, rows, labels[..i], labels[i]);
      var v := Measured(m, counts[labels[i]]);
      if v.Some? {
        sum, n := sum + v.value, n + 1;
      }
    }
    assert labels[..|labels|] == labels;
    average := if n == 0 then None else Some(Over(sum, n as real));
  }

  /** computeClassificationMetrics, composed of the parts above. */
  method ComputeClassificationMetrics(rows: seq<Row>) returns (report: Report)
    ensures ReportFor(report, rows)
  {
    hide Sum, CountsOf, MacroParts, F1, Macro, ClassLabels;
    var accuracy, correct, total := ComputeAccuracy(rows);
    var labels, counts := ComputePerClassConfusion(rows);
    var macroPrecision := Average(PrecisionOf, rows, labels, counts);
    var macroRecall := Average(RecallOf, rows, labels, counts);
    var macroF1 := Average(F1Of, rows, labels, counts);
    var perClass := [];
    for i := 0 to |labels|
      invariant |perClass| == i
      invariant forall j :: 0 <= j < i ==> EntryFor(perClass[j], rows, labels[j])
    {
      var c := counts[labels[i]];
      var p, r := Precision(c), Recall(c);
      perClass := perClass + [Entry(labels[i], c, p, r, F1(p, r))];
    }
    var failed, inputTokens, outputTokens, cost := AddUp(rows);
    report := Report(total, correct, failed, accuracy, macroPrecision, macroRecall, macroF1, perClass, inputTokens,
        outputTokens, cost);
  }

  /** Its own loop: failures and usage. */
  method AddUp(rows: seq<Row>) returns (failed: nat, inputTokens: int, outputTokens: int, cost: real)
    ensures failed == Sum(rows, Failures) && (inputTokens, outputTokens, cost) == Usage(rows)
  {
    hide BelongsTo;
    failed, inputTokens, outputTokens, cost := 0, 0, 0, 0.0;
    for i := 0 to |rows|
      invariant failed == Sum(rows[..i], Failures) && (inputTokens, outputTokens, cost) == Usage(rows[..i])
    {
      assert rows[..i + 1] == rows[..i] + [rows[i]];
      assert rows[..i + 1][..i] == rows[..i];
      SumAppend(rows[..i], rows[i], Failures);
      if BelongsTo(rows[i], Failures) {
        failed := failed + rows[i].count;
      }
      inputTokens, outputTokens, cost := inputTokens + rows[i].inputTokens, outputTokens + rows[i].outputTokens,
          cost + rows[i].cost;
    }
    assert rows[..|rows|] == rows;
  }

  // ---- what the report says about the rows ----

  /** How many samples the rows of a kind stand for. */
  function Samples(rows: seq<Row>, p: Row -> bool): nat {
    if rows == [] then 0
    else Samples(rows[..|rows| - 1], p) + (if p(rows[|rows| - 1]) then rows[|rows| - 1].count else 0)
  }

  lemma {:induction false} SumIsSamples(rows: seq<Row>, q: Quantity, p: Row -> bool)
    requires forall r :: BelongsTo(r, q) <==> p(r)
    ensures Sum(rows, q) == Samples(rows, p)
  {
    hide BelongsTo;
    if rows != [] {
      SumIsSamples(rows[..|rows| - 1], q, p);
    }
  }

  lemma {:induction false} SamplesAddUp(rows: seq<Row>, p: Row -> bool, q: Row -> bool, both: Row -> bool)
    requires forall r :: both(r) <==> p(r) || q(r)
    requires forall r :: !(p(r) && q(r))
    ensures Samples(rows, both) == Samples(rows, p) + Samples(rows, q)
  {
    if rows != [] {
      SamplesAddUp(rows[..|rows| - 1], p, q, both);
    }
  }

  predicate IsCorrect(r: Row) { r.status == Success && r.judgment == Some(Correct) }
  predicate IsIncorrect(r: Row) { r.status == Success && r.judgment == Some(Incorrect) }

  /** The correct samples of a label, the judged ones decided as it, and those that count as having it. */
  function CorrectAs(l: string): Row -> bool {
    (r: Row) => IsCorrect(r) && LabelOf(r.decision) == l
  }
  function DecidedAs(l: string): Row -> bool {
    (r: Row) => (IsCorrect(r) || IsIncorrect(r)) && LabelOf(r.decision) == l
  }
  function Having(l: string): Row -> bool {
    (r: Row) => (IsCorrect(r) && LabelOf(r.decision) == l) || (IsIncorrect(r) && LabelOf(r.expected) == l)
  }

  lemma CountsAreSamples(rows: seq<Row>, l: string)
    ensures
      var c := CountsOf(rows, l);
      && c.tp == Samples(rows, CorrectAs(l)) && c.tp + c.fp == Samples(rows, DecidedAs(l))
      && c.tp + c.fn == c.support == Samples(rows, Having(l))
  {
    hide Sum, Samples;
    var wrong := (r: Row) => IsIncorrect(r) && LabelOf(r.decision) == l;
    SumIsSamples(rows, Of(TruePositive, l), CorrectAs(l));
    SumIsSamples(rows, Of(FalsePositive, l), wrong);
    SumIsSamples(rows, Of(Support, l), Having(l));
    SamplesAddUp(rows, CorrectAs(l), wrong, DecidedAs(l));
    SupportIsSum(rows, l);
  }

  /** x is the share of the part in the whole, and absent exactly without a whole. */
  predicate IsShare(x: Option<real>, part: nat, whole: nat) {
    && (x.None? <==> whole == 0)
    && (x.Some? ==> Times(x.value, whole as real) == part as real)
  }

  lemma RatioIsShare(part: nat, whole: nat)
    requires part <= whole
    ensures IsShare(Ratio(part, whole), part, whole)
  {
    if whole > 0 {
      RatioInUnit(part, whole);
    }
  }

  /** Each entry of the report, read off the rows: precision is the share of the correct samples in the
      judged ones decided as the label, recall their share in those that have the label, and F1, there if
      both are, their share when doubled in both together. */
  lemma EntryMeans(report: Report, rows: seq<Row>, e: Entry)
    requires ReportFor(report, rows) && e in report.perClass
    ensures
      var correct, decided := Samples(rows, CorrectAs(e.name)), Samples(rows, DecidedAs(e.name));
      var support := Samples(rows, Having(e.name));
      && IsShare(e.precision, correct, decided)
      && IsShare(e.recall, correct, support)
      && (e.f1.Some? <==> decided > 0 && support > 0)
      && (e.f1.Some? ==> IsShare(e.f1, 2 * correct, decided + support))
      && e.counts.tp == correct && e.counts.tp + e.counts.fp == decided
      && e.counts.tp + e.counts.fn == e.counts.support == support
  {
    hide Samples, CountsOf, ClassLabels, Macro, Usage, Ratio, F1, Sum;
    var i :| 0 <= i < |report.perClass| && report.perClass[i] == e;
    assert EntryFor(e, rows, ClassLabels(rows)[i]);
    CountsAreSamples(rows, e.name);
    var c := e.counts;
    RatioIsShare(c.tp, c.tp + c.fp);
    RatioIsShare(c.tp, c.tp + c.fn);
    RatioIsShare(2 * c.tp, 2 * c.tp + c.fp + c.fn);
    F1IsTheHarmonicMean(c);
  }

  /** The entry's value of one measure. */
  function ValueOf(m: Measure, e: Entry): Option<real> {
    match m
    case PrecisionOf => e.precision
    case RecallOf => e.recall
    case F1Of => e.f1
  }

  function PresentSum(m: Measure, es: seq<Entry>): real {
    if es == [] then 0.0 else PresentSum(m, es[..|es| - 1]) + ValueOf(m, es[|es| - 1]).GetOr(0.0)
  }

  function PresentCount(m: Measure, es: seq<Entry>): nat {
    if es == [] then 0 else PresentCount(m, es[..|es| - 1]) + (if ValueOf(m, es[|es| - 1]).Some? then 1 else 0)
  }

  /** x is the mean of the values that are present, and absent exactly if none is. */
  predicate IsMean(x: Option<real>, m: Measure, es: seq<Entry>) {
    && (x.None? <==> PresentCount(m, es) == 0)
    && (x.Some? ==> Times(x.value, PresentCount(m, es) as real) == PresentSum(m, es))
  }

  lemma {:induction false} PartsOfEntries(m: Measure, rows: seq<Row>, labels: seq<string>, es: seq<Entry>)
    requires |es| == |labels| && forall i :: 0 <= i < |es| ==> EntryFor(es[i], rows, labels[i])
    ensures MacroParts(m, rows, labels) == (PresentSum(m, es), PresentCount(m, es))
  {
    hide CountsOf, Precision, Recall, F1;
    if es != [] {
      PartsOfEntries(m, rows, labels[..|labels| - 1], es[..|es| - 1]);
      assert EntryFor(es[|es| - 1], rows, labels[|es| - 1]);
    }
  }

  lemma MacroIsMean(m: Measure, rows: seq<Row>, es: seq<Entry>)
    requires EntriesFor(es, rows)
    ensures IsMean(Macro(m, rows), m, es)
  {
    hide Times, Over, ClassLabels, EntryFor, MacroParts;
    PartsOfEntries(m, rows, ClassLabels(rows), es);
    if PresentCount(m, es) > 0 {
      OverTimes(PresentSum(m, es), PresentCount(m, es) as real);
    }
  }

  /** The totals of the report, read off the rows, and its averages, read off its entries. A sample has
      failed when its run did, when its output could not be parsed, or when judging it went wrong
      although an output was expected. */
  lemma ReportMeans(report: Report, rows: seq<Row>)
    requires ReportFor(report, rows)
    ensures report.total == Samples(rows, _ => true)
    ensures report.correct == Samples(rows, (r: Row) => r.status == Success && r.judgment == Some(Correct))
    ensures report.failed == Samples(rows, (r: Row) =>
              || r.status == Failed || r.judgment == Some(ParseError)
              || (r.judgment == Some(JudgeError) && r.expected != None))
    ensures IsShare(report.accuracy, report.correct, report.total)
    ensures IsMean(report.macroPrecision, PrecisionOf, report.perClass)
    ensures IsMean(report.macroRecall, RecallOf, report.perClass)
    ensures IsMean(report.macroF1, F1Of, report.perClass)
  {
    hide Sum, Samples, Usage, EntriesFor, Macro, Ratio, IsMean;
    SumIsSamples(rows, Everything, _ => true);
    SumIsSamples(rows, AllCorrect, (r: Row) => r.status == Success && r.judgment == Some(Correct));
    SumIsSamples(rows, Failures, (r: Row) =>
      || r.status == Failed || r.judgment == Some(ParseError)
      || (r.judgment == Some(JudgeError) && r.expected != None));
    RatioIsShare(report.correct, report.total);
    MacroIsMean(PrecisionOf, rows, report.perClass);
    MacroIsMean(RecallOf, rows, report.perClass);
    MacroIsMean(F1Of, rows, report.perClass);
  }

  /** The labels are met row by row, the decision before the expected output; all but the null bucket and
      the prototype's name become classes. */
  lemma LabelsAsMet(rows: seq<Row>, r: Row)
    ensures LabelStream([]) == []
    ensures LabelStream(rows + [r])
         == LabelStream(rows)
            + if IsCorrect(r) then [LabelOf(r.decision)]
              else if IsIncorrect(r) then [LabelOf(r.decision), LabelOf(r.expected)] else []
    ensures ClassLabels(rows)
         == RecordOrder(KeepIf(Distinct(LabelStream(rows)), l => l != "__null__" && l != "__proto__"))
    ensures forall v :: LabelOf(v) == if v.Some? then v.value else "__null__"
  {
    hide Distinct, RecordOrder;
    StreamAppend(rows, r);
    SameKept(Distinct(LabelStream(rows)), l => Listed(l), l => l != "__null__" && l != "__proto__");
  }

  lemma {:induction false} SameKept(labels: seq<string>, p: string -> bool, q: string -> bool)
    requires forall l :: p(l) <==> q(l)
    ensures KeepIf(labels, p) == KeepIf(labels, q)
  {
    if labels != [] {
      SameKept(labels[..|labels| - 1], p, q);
    }
  }

  /** Every row adds its own tokens and cost, judged or not. */
  lemma UsageAddsUp(rows: seq<Row>, r: Row)
    ensures Usage([]) == (0, 0, 0.0)
    ensures Usage(rows + [r])
         == (Usage(rows).0 + r.inputTokens, Usage(rows).1 + r.outputTokens, Usage(rows).2 + r.cost)
  {
    assert (rows + [r])[..|rows|] == rows;
  }
}
