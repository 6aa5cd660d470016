/** Fitting samples, batches and texts into a token or character budget. */
module TokenBudget {
  import opened OrderedSets

  const TRUNCATION_MARKER := "…[truncated]"

  /** computeSampleBudget. */
  function SampleBudget(maxInputTokens: int, baselineTokens: int): int {
    if maxInputTokens > baselineTokens then maxInputTokens - baselineTokens else 0
  }

  // ---- samples ----

  /** The elements whose mark equals `which`, in order. */
  function Select<T>(xs: seq<T>, marks: seq<bool>, which: bool): (r: seq<T>)
    requires |marks| == |xs|
    ensures |r| <= |xs|
    ensures forall x :: x in r ==> x in xs
  {
    if xs == [] then []
    else
      var n := |xs| - 1;
      var r := Select(xs[..n], marks[..n], which);
      if marks[n] == which then r + [xs[n]] else r
  }

  function TotalCost<T>(xs: seq<T>, cost: T -> nat): nat {
    if xs == [] then 0 else TotalCost(xs[..|xs| - 1], cost) + cost(xs[|xs| - 1])
  }

  lemma SelectAppend<T>(xs: seq<T>, marks: seq<bool>, x: T, mark: bool, which: bool)
    requires |marks| == |xs|
    ensures Select(xs + [x], marks + [mark], which) == if mark == which then Select(xs, marks, which) + [x]
        else Select(xs, marks, which)
  {
    assert (xs + [x])[..|xs|] == xs && (marks + [mark])[..|xs|] == marks;
  }

  lemma CostAppend<T>(xs: seq<T>, x: T, cost: T -> nat)
    ensures TotalCost(xs + [x], cost) == TotalCost(xs, cost) + cost(x)
  {
    assert (xs + [x])[..|xs|] == xs;
  }

  /** The selection keeps the order of the list: here are the places its elements come from. */
  lemma {:induction false} SelectKeepsOrder<T>(xs: seq<T>, marks: seq<bool>, which: bool) returns (at: seq<nat>)
    requires |marks| == |xs|
    ensures Places(at, xs, Select(xs, marks, which))
    ensures forall i :: 0 <= i < |xs| ==> (i in at <==> marks[i] == which)
  {
    at := [];
    if xs != [] {
      hide Places, Select;
      var n := |xs| - 1;
      var init, kept := xs[..n], marks[..n];
      assert xs == init + [xs[n]] && marks == kept + [marks[n]];
      var before := SelectKeepsOrder(init, kept, which);
      SelectAppend(init, kept, xs[n], marks[n], which);
      PlacesBehind(before, init, Select(init, kept, which), xs[n], marks[n] == which);
      PlacesBelow(before, init, Select(init, kept, which));
      MarkedAfter(kept, marks[n], before, which);
      at := if marks[n] == which then before + [n] else before;
    }
  }

  lemma MarkedAfter(marks: seq<bool>, mark: bool, at: seq<nat>, which: bool)
    requires |marks| !in at && forall i :: 0 <= i < |marks| ==> (i in at <==> marks[i] == which)
    ensures
      var after := if mark == which then at + [|marks|] else at;
      forall i :: 0 <= i <= |marks| ==> (i in after <==> (marks + [mark])[i] == which)
  {
  }

  lemma PlacesBelow<T>(at: seq<nat>, xs: seq<T>, r: seq<T>)
    requires Places(at, xs, r)
    ensures |xs| !in at
  {
  }

  lemma NothingGreedy<T>(xs: seq<T>, budget: int, minSamples: nat, cost: T -> nat)
    requires xs == []
    ensures Greedy(xs, [], budget, minSamples, cost)
  {
  }

  lemma NothingSelected<T>(xs: seq<T>, cost: T -> nat)
    requires xs == []
    ensures Select(xs, [], true) == [] && Select(xs, [], false) == [] && TotalCost(xs, cost) == 0
  {
  }

  /** The two parts lose and invent nothing. */
  lemma {:induction false} SelectPartitions<T>(xs: seq<T>, marks: seq<bool>)
    requires |marks| == |xs|
    ensures multiset(Select(xs, marks, true)) + multiset(Select(xs, marks, false)) == multiset(xs)
  {
    if xs != [] {
      var n := |xs| - 1;
      SelectPartitions(xs[..n], marks[..n]);
      assert xs == xs[..n] + [xs[n]];
    }
  }

  /** Each element is kept exactly when too few were kept before it, or it still fits after them. */
  ghost predicate Greedy<T>(xs: seq<T>, marks: seq<bool>, budget: int, minSamples: nat, cost: T -> nat) {
    && |marks| == |xs|
    && forall i :: 0 <= i < |xs| ==>
         var before := Select(xs[..i], marks[..i], true);
         marks[i] == (|before| < minSamples || TotalCost(before, cost) + cost(xs[i]) <= budget)
  }

  lemma GreedyAppend<T>(xs: seq<T>, marks: seq<bool>, x: T, mark: bool, budget: int, minSamples: nat, cost: T -> nat)
    requires Greedy(xs, marks, budget, minSamples, cost)
    requires mark == (|Select(xs, marks, true)| < minSamples
        || TotalCost(Select(xs, marks, true), cost) + cost(x) <= budget)
    ensures Greedy(xs + [x], marks + [mark], budget, minSamples, cost)
  {
    hide Select, TotalCost;
    assert (xs + [x])[..|xs|] == xs && (marks + [mark])[..|xs|] == marks;
    forall i | 0 <= i < |xs|
      ensures (xs + [x])[..i] == xs[..i] && (marks + [mark])[..i] == marks[..i] && (marks + [mark])[i] == marks[i]
    {
    }
  }

  /** fitSamplesToBudget. Keeps an order-preserving part, chosen greedily, that contains at least
      the first minSamples, stays in budget beyond them, and leaves out only what would not fit. */
  method FitSamplesToBudget<T>(samples: seq<T>, tokenBudget: int, minSamples: nat, cost: T -> nat)
    returns (fitted: seq<T>, dropped: seq<T>, used: nat, ghost marks: seq<bool>)
    ensures |marks| == |samples| && Greedy(samples, marks, tokenBudget, minSamples, cost)
    ensures fitted == Select(samples, marks, true) && dropped == Select(samples, marks, false)
    ensures forall i :: 0 <= i < |samples| && i < minSamples ==> marks[i]
    ensures used == TotalCost(fitted, cost)
    ensures used <= tokenBudget || |fitted| <= minSamples
    ensures forall d :: d in dropped ==> used + cost(d) > tokenBudget
    ensures |fitted| + |dropped| == |samples|
  {
    hide Select, TotalCost, Greedy;
    fitted, dropped, used, marks := [], [], 0, [];
    assert Greedy(samples[..0], marks, tokenBudget, minSamples,
        cost) by { NothingGreedy(samples[..0], tokenBudget, minSamples, cost); }
    NothingSelected(samples[..0], cost);
    for i := 0 to |samples|
      invariant Greedy(samples[..i], marks, tokenBudget, minSamples, cost)
      invariant |marks| == i && fitted == Select(samples[..i], marks, true)
          && dropped == Select(samples[..i], marks, false)
      invariant forall j :: 0 <= j < i && j < minSamples ==> marks[j]
      invariant i <= minSamples ==> |fitted| == i
      invariant |fitted| + |dropped| == i
      invariant used == TotalCost(fitted, cost)
      invariant used <= tokenBudget || |fitted| <= minSamples
      invariant forall d :: d in dropped ==> used + cost(d) > tokenBudget
      invariant minSamples <= i ==> |fitted| >= minSamples
    {
      var sample := samples[i];
      var tokens := cost(sample);
      assert samples[..i + 1] == samples[..i] + [sample];
      var wouldExceed := used + tokens > tokenBudget;
      GreedyAppend(samples[..i], marks, sample, !(|fitted| >= minSamples && wouldExceed), tokenBudget, minSamples,
          cost);
      if |fitted| >= minSamples && wouldExceed {
        SelectAppend(samples[..i], marks, sample, false, true);
        SelectAppend(samples[..i], marks, sample, false, false);
        dropped := dropped + [sample];
        marks := marks + [false];
      } else {
        SelectAppend(samples[..i], marks, sample, true, true);
        SelectAppend(samples[..i], marks, sample, true, false);
        CostAppend(fitted, sample, cost);
        fitted := fitted + [sample];
        used := used + tokens;
        marks := marks + [true];
      }
    }
    assert samples[..|samples|] == samples;
  }

  lemma {:induction false} CostAtLeastCount<T>(xs: seq<T>, cost: T -> nat)
    requires forall x :: x in xs ==> cost(x) >= 1
    ensures TotalCost(xs, cost) >= |xs|
  {
    if xs != [] {
      CostAtLeastCount(xs[..|xs| - 1], cost);
      assert xs[|xs| - 1] in xs;
    }
  }

  /** fitSamplesForConfusion and fitSamplesForRegression after their probe. A non-empty input
      always keeps a sample; it is the forced, field-truncated head exactly when no sample fits
      alone; and an unforced fit keeps the whole call within the batch limit. */
  method FitBatch<T>(samples: seq<T>, maxInputTokens: int, baseline: int, cost: T -> nat, truncate: T -> T)
    returns (fitted: seq<T>, dropped: seq<T>, used: nat, fieldsTruncated: bool, ghost marks: seq<bool>)
    requires forall x :: x in samples ==> cost(x) >= 1
    ensures samples != [] ==> fitted != []
    ensures |fitted| + |dropped| == |samples|
    ensures fieldsTruncated <==> samples != [] && forall x :: x in samples ==> baseline + cost(x) > maxInputTokens
    ensures fieldsTruncated ==> fitted == [truncate(samples[0])] && dropped == samples[1..] && used == cost(fitted[0])
    ensures !fieldsTruncated && samples != [] ==> baseline + used <= maxInputTokens
    ensures !fieldsTruncated ==>
        used == TotalCost(fitted, cost) && multiset(fitted) + multiset(dropped) == multiset(samples)
    ensures !fieldsTruncated ==>
              && Greedy(samples, marks, SampleBudget(maxInputTokens, baseline), 0, cost)
              && fitted == Select(samples, marks, true) && dropped == Select(samples, marks, false)
  {
    hide Greedy;
    var budget := SampleBudget(maxInputTokens, baseline);
    fitted, dropped, used, marks := FitSamplesToBudget(samples, budget, 0, cost);
    SelectPartitions(samples, marks);
    CostAtLeastCount(fitted, cost);
    fieldsTruncated := false;
    if |fitted| == 0 && |samples| > 0 {
      assert multiset(dropped) == multiset(samples);
      forall x | x in samples ensures cost(x) > budget {
        assert x in multiset(dropped);
      }
      var truncated := truncate(samples[0]);
      fitted, dropped, used, fieldsTruncated := [truncated], samples[1..], cost(truncated), true;
    } else if |samples| > 0 {
      CostOfMember(fitted, cost, 0);
    }
  }

  lemma {:induction false} CostOfMember<T>(xs: seq<T>, cost: T -> nat, k: nat)
    requires k < |xs|
    ensures cost(xs[k]) <= TotalCost(xs, cost)
  {
    if k < |xs| - 1 {
      CostOfMember(xs[..|xs| - 1], cost, k);
    }
  }

  /** Phase 2 of runSummarize: confusion batches first, then keep what fits, at least one. */
  method KeepBatches<T(!new)>(batches: seq<T>, isConfusion: T -> bool, budget: int, cost: T -> nat)
    returns (kept: seq<T>, droppedCount: nat, used: nat, ghost marks: seq<bool>)
    ensures Greedy(ConfusionFirst(batches, isConfusion), marks, budget, 1, cost)
    ensures kept == Select(ConfusionFirst(batches, isConfusion), marks, true)
    ensures batches != [] ==> kept != []
    ensures droppedCount == |batches| - |kept| && used == TotalCost(kept, cost)
    ensures used <= budget || |kept| <= 1
    ensures forall b :: b in kept ==> b in batches
    ensures (exists b :: b in batches && isConfusion(b)) ==> isConfusion(kept[0])
  {
    var sorted := ConfusionFirst(batches, isConfusion);
    var dropped;
    kept, dropped, used, marks := FitSamplesToBudget(sorted, budget, 1, cost);
    droppedCount := |dropped|;
    if batches != [] {
      FirstKept(sorted, marks);
      ConfusionLeads(batches, isConfusion);
    }
  }

  lemma {:induction false} FirstKept<T>(xs: seq<T>, marks: seq<bool>)
    requires |marks| == |xs| > 0 && marks[0]
    ensures Select(xs, marks, true) != [] && Select(xs, marks, true)[0] == xs[0]
  {
    if |xs| > 1 {
      FirstKept(xs[..|xs| - 1], marks[..|xs| - 1]);
    }
  }

  function Filter<T(!new)>(xs: seq<T>, p: T -> bool, which: bool): (r: seq<T>)
    ensures forall x :: x in r <==> x in xs && p(x) == which
  {
    if xs == [] then []
    else
      assert xs == [xs[0]] + xs[1..];
      (if p(xs[0]) == which then [xs[0]] else []) + Filter(xs[1..], p, which)
  }

  lemma {:induction false} FilterKeepsOrder<T(!new)>(xs: seq<T>, p: T -> bool, which: bool) returns (at: seq<nat>)
    ensures Places(at, xs, Filter(xs, p, which))
  {
    at := [];
    if xs != [] {
      hide Places, Shifted, Filter;
      var first, rest := xs[0], xs[1..];
      assert xs == [first] + rest;
      FilterStep(first, rest, p, which);
      var later := FilterKeepsOrder(rest, p, which);
      PlacesInFront(later, rest, Filter(rest, p, which), first, p(first) == which);
      at := Shifted(later, p(first) == which);
    }
  }

  lemma FilterStep<T(!new)>(first: T, rest: seq<T>, p: T -> bool, which: bool)
    ensures Filter([first] + rest, p, which)
         == if p(first) == which then [first] + Filter(rest, p, which) else Filter(rest, p, which)
  {
    assert ([first] + rest)[1..] == rest;
  }

  /** The stable sort by "is a confusion batch". */
  function ConfusionFirst<T(!new)>(batches: seq<T>, isConfusion: T -> bool): (r: seq<T>)
    ensures forall b :: b in r <==> b in batches
  {
    Filter(batches, isConfusion, true) + Filter(batches, isConfusion, false)
  }

  lemma {:induction false} FilterPartitions<T(!new)>(xs: seq<T>, p: T -> bool)
    ensures |Filter(xs, p, true)| + |Filter(xs, p, false)| == |xs|
  {
    if xs != [] {
      FilterPartitions(xs[1..], p);
    }
  }

  /** It is a stable sort: batches[at[k]] comes k-th, every confusion batch precedes every other, and
      batches of the same kind stay in their order. */
  lemma ConfusionFirstSorts<T(!new)>(batches: seq<T>, isConfusion: T -> bool) returns (at: seq<nat>)
    ensures |at| == |ConfusionFirst(batches, isConfusion)| == |batches|
    ensures forall k :: 0 <= k < |at| ==>
              at[k] < |batches| && ConfusionFirst(batches, isConfusion)[k] == batches[at[k]]
    ensures forall k, l :: 0 <= k < l < |at| ==>
              if isConfusion(batches[at[k]]) == isConfusion(batches[at[l]]) then at[k] < at[l]
              else isConfusion(batches[at[k]])
  {
    FilterPartitions(batches, isConfusion);
    var yes, no := Filter(batches, isConfusion, true), Filter(batches, isConfusion, false);
    var first := FilterKeepsOrder(batches, isConfusion, true);
    var second := FilterKeepsOrder(batches, isConfusion, false);
    at := first + second;
    forall k | 0 <= k < |at|
      ensures at[k] < |batches| && ConfusionFirst(batches, isConfusion)[k] == batches[at[k]]
      ensures isConfusion(batches[at[k]]) <==> k < |first|
    {
      if k < |first| {
        assert yes[k] in yes;
      } else {
        assert no[k - |first|] in no;
      }
    }
  }

  lemma ConfusionLeads<T(!new)>(batches: seq<T>, isConfusion: T -> bool)
    ensures |ConfusionFirst(batches, isConfusion)| == |batches|
    ensures (exists b :: b in batches && isConfusion(b)) ==> isConfusion(ConfusionFirst(batches, isConfusion)[0])
  {
    FilterPartitions(batches, isConfusion);
    var confusion := Filter(batches, isConfusion, true);
    if confusion != [] {
      assert confusion[0] in confusion;
    }
  }

  // ---- texts ----

  /** How slice reads a bound: negative counts from the end, and both ends clamp. */
  function SliceIndex(k: int, length: nat): (i: nat)
    ensures i <= length
  {
    if k < 0 then (if length + k < 0 then 0 else length + k) else if k > length then length else k
  }

  function Slice(s: string, from: int, to: int): string {
    var i, j := SliceIndex(from, |s|), SliceIndex(to, |s|);
    if i < j then s[i..j] else ""
  }

  const TWO_52 := 0x10_0000_0000_0000
  const TWO_53 := 0x20_0000_0000_0000

  /** The double nearest to 0.7 is this many units of 2 to the power -52. */
  const SEVEN_TENTHS := 3152519739159347

  function Pow2(k: nat): (r: nat)
    ensures r >= 1
  {
    if k == 0 then 1 else 2 * Pow2(k - 1)
  }

  /** How many of its bits a double cannot hold. */
  function ExcessBits(p: nat): nat {
    if p < TWO_53 then 0 else 1 + ExcessBits(p / 2)
  }

  /** Rounding an exact product to a double: to the nearest multiple of unit, ties to even. */
  function ToMultiple(p: nat, unit: nat): (r: nat)
    requires unit >= 1
  {
    var q, rest := p / unit, p % unit;
    (if 2 * rest > unit || (2 * rest == unit && q % 2 == 1) then q + 1 else q) * unit
  }

  function ToDouble(p: nat): nat {
    ToMultiple(p, Pow2(ExcessBits(p)))
  }

  /** Math.floor(room * 0.7) on doubles. */
  function HeadLength(room: int): int {
    if room >= 0 then ToDouble(room * SEVEN_TENTHS) / TWO_52
    else -((ToDouble(-room * SEVEN_TENTHS) + TWO_52 - 1) / TWO_52)
  }

  lemma {:induction false} ExcessIsSmall(p: nat)
    requires p >= TWO_52
    ensures Pow2(ExcessBits(p)) * TWO_52 <= p
  {
    if p >= TWO_53 {
      ExcessIsSmall(p / 2);
    }
  }

  lemma MultipleIsNear(p: nat, unit: nat)
    requires unit >= 1
    ensures p < ToMultiple(p, unit) + unit && ToMultiple(p, unit) <= p + unit - 1
  {
    var q, rest := p / unit, p % unit;
    assert p == q * unit + rest;
    assert (q + 1) * unit == q * unit + unit;
  }

  lemma DoubleIsNear(p: nat)
    ensures p < TWO_53 ==> ToDouble(p) == p
    ensures p >= TWO_53 ==> (ToDouble(p) - p) * TWO_52 <= p && (p - ToDouble(p)) * TWO_52 <= p
  {
    if p < TWO_53 {
      assert ToMultiple(p, 1) == p;
    } else {
      ExcessIsSmall(p);
      MultipleIsNear(p, Pow2(ExcessBits(p)));
    }
  }

  /** The head leaves room for the tail, and is negative exactly when there is no room at all. */
  lemma HeadFits(room: int)
    ensures room >= 0 ==> 0 <= HeadLength(room) <= room
    ensures room < 0 ==> room <= HeadLength(room) < 0
  {
    hide ToDouble;
    var n := if room >= 0 then room else -room;
    DoubleIsNear(n * SEVEN_TENTHS);
  }

  /** For any room that a text can have, or lack, the head takes seven tenths of it, to within one character. */
  lemma HeadIsSevenTenths(room: int)
    requires -0x4000_0000 < room < 0x4000_0000
    ensures 7 * room - 10 <= 10 * HeadLength(room) <= 7 * room
  {
    hide ToDouble;
    DoubleIsNear((if room >= 0 then room else -room) * SEVEN_TENTHS);
  }

  /** truncateLongText: about 70% head, marker, the rest tail. */
  function TruncateLongText(text: string, maxChars: int, marker: string): string {
    if text == "" || |text| <= maxChars then text
    else
      var headLength := HeadLength(maxChars - |marker|);
      var tailLength := maxChars - |marker| - headLength;
      Slice(text, 0, headLength) + marker + Slice(text, |text| - tailLength, |text|)
  }

  /** It respects its limit if and only if the text already did or the limit leaves room for the
      marker; then a shortened text has exactly the limit's length. */
  lemma LongTextFitsIff(text: string, maxChars: int, marker: string)
    ensures |TruncateLongText(text, maxChars, marker)| <= maxChars
        <==> |text| <= maxChars || (maxChars >= |marker| && text != "")
    ensures |text| > maxChars >= |marker| ==> |TruncateLongText(text, maxChars, marker)| == maxChars
  {
    hide HeadLength;
    HeadFits(maxChars - |marker|);
  }

  /** A shortened text starts and ends like the original. */
  lemma LongTextKeepsEnds(text: string, maxChars: int, marker: string)
    requires |text| > maxChars >= |marker|
    ensures
      var head := HeadLength(maxChars - |marker|);
      var tail := maxChars - |marker| - head;
      0 <= head && 0 <= tail && head + tail < |text|
      && TruncateLongText(text, maxChars, marker) == text[..head] + marker + text[|text| - tail..]
  {
    hide HeadLength;
    HeadFits(maxChars - |marker|);
  }

  /** Where the marker alone is over the limit, the text loses only a few characters at its end and gets
      the marker. */
  lemma MarkerOverLimit(text: string, maxChars: int, marker: string)
    requires text != "" && |text| > maxChars && |marker| > maxChars
    ensures
      var lost := -HeadLength(maxChars - |marker|);
      && 0 < lost <= |marker| - maxChars
      && TruncateLongText(text, maxChars, marker) == (if lost < |text| then text[..|text| - lost] else "") + marker
  {
    hide HeadLength;
    HeadFits(maxChars - |marker|);
  }

  // ---- structured values ----

  datatype Json =
    | Null
    | Boolean(b: bool)
    | Number(n: real)
    | Str(s: string)
    | Arr(items: seq<Json>)
    | Obj(fields: seq<Field>)
  datatype Field = Field(key: string, value: Json)

  /** truncateStringFields. */
  function TruncateStringFields(v: Json, maxChars: nat, marker: string): Json {
    match v
    case Str(s) => if |s| > maxChars then Str(s[..maxChars] + marker) else v
    case Arr(items) => Arr(seq(|items|,
        i requires 0 <= i < |items| => TruncateStringFields(items[i], maxChars, marker)))
    case Obj(fields) =>
      Obj(seq(|fields|, i requires 0 <= i < |fields| => Field(fields[i].key,
          TruncateStringFields(fields[i].value, maxChars, marker))))
    case _ => v
  }

  /** No string anywhere in the value is longer than the limit. */
  ghost predicate StringsWithin(v: Json, limit: nat) {
    match v
    case Str(s) => |s| <= limit
    case Arr(items) => forall i :: 0 <= i < |items| ==> StringsWithin(items[i], limit)
    case Obj(fields) => forall i :: 0 <= i < |fields| ==> StringsWithin(fields[i].value, limit)
    case _ => true
  }

  /** Nothing changes but strings over the limit, and those keep their first maxChars characters and
      get the marker. */
  ghost predicate OnlyShortened(v: Json, r: Json, maxChars: nat, marker: string) {
    match v
    case Str(s) => r.Str? && if |s| <= maxChars then r.s == s else r.s == s[..maxChars] + marker
    case Arr(items) =>
      r.Arr? && |r.items| == |items|
      && forall i :: 0 <= i < |items| ==> OnlyShortened(items[i], r.items[i], maxChars, marker)
    case Obj(fields) =>
      r.Obj? && |r.fields| == |fields|
      && forall i :: 0 <= i < |fields| ==>
           r.fields[i].key == fields[i].key && OnlyShortened(fields[i].value, r.fields[i].value, maxChars, marker)
    case _ => r == v
  }

  lemma {:induction false} TruncationOnlyShortens(v: Json, maxChars: nat, marker: string)
    ensures OnlyShortened(v, TruncateStringFields(v, maxChars, marker), maxChars, marker)
  {
    match v
    case Arr(items) =>
      forall i | 0 <= i < |items|
        ensures OnlyShortened(items[i], TruncateStringFields(items[i], maxChars, marker), maxChars, marker)
      {
        TruncationOnlyShortens(items[i], maxChars, marker);
      }
    case Obj(fields) =>
      forall i | 0 <= i < |fields|
        ensures OnlyShortened(fields[i].value, TruncateStringFields(fields[i].value, maxChars, marker), maxChars,
            marker)
      {
        TruncationOnlyShortens(fields[i].value, maxChars, marker);
      }
    case _ =>
  }

  /** Every string ends up within the limit plus the marker, and a second pass changes nothing. */
  lemma {:induction false} TruncationSettles(v: Json, maxChars: nat, marker: string)
    ensures StringsWithin(TruncateStringFields(v, maxChars, marker), maxChars + |marker|)
    ensures TruncateStringFields(TruncateStringFields(v, maxChars, marker), maxChars, marker)
        == TruncateStringFields(v, maxChars, marker)
    ensures StringsWithin(v, maxChars) ==> TruncateStringFields(v, maxChars, marker) == v
  {
    match v
    case Str(s) =>
      if |s| > maxChars {
        assert (s[..maxChars] + marker)[..maxChars] == s[..maxChars];
      }
    case Arr(items) =>
      forall i | 0 <= i < |items|
        ensures StringsWithin(TruncateStringFields(items[i], maxChars, marker), maxChars + |marker|)
        ensures TruncateStringFields(TruncateStringFields(items[i], maxChars, marker), maxChars, marker)
            == TruncateStringFields(items[i], maxChars, marker)
        ensures StringsWithin(items[i], maxChars) ==> TruncateStringFields(items[i], maxChars, marker) == items[i]
      {
        TruncationSettles(items[i], maxChars, marker);
      }
    case Obj(fields) =>
      forall i | 0 <= i < |fields|
        ensures StringsWithin(TruncateStringFields(fields[i].value, maxChars, marker), maxChars + |marker|)
        ensures TruncateStringFields(TruncateStringFields(fields[i].value, maxChars, marker), maxChars, marker)
            == TruncateStringFields(fields[i].value, maxChars, marker)
        ensures StringsWithin(fields[i].value, maxChars) ==>
            TruncateStringFields(fields[i].value, maxChars, marker) == fields[i].value
      {
        TruncationSettles(fields[i].value, maxChars, marker);
      }
    case _ =>
  }
}
