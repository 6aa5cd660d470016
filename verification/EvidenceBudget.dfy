/**
 Trimming the evidence bundle of a generate call to its token budget. Sizes are the characters
 an element contributes to the serialized message; token counts are a quarter of the total.
 */
module EvidenceBudget {
  import opened Wrappers
  import opened OrderedSets
  import opened TokenBudget

  datatype Priority = High | Medium | Low
  datatype Pattern = Pattern(id: Option<string>, affectedCount: Option<int>, count: int, size: nat)
  datatype Change = Change(id: Option<string>, priority: Option<Priority>, affectedCount: Option<int>,
      addresses: seq<string>, size: nat)
  datatype Conflict = Conflict(group: string, size: nat)
  datatype Bundle = Bundle(summary: string, patterns: seq<Pattern>, changes: seq<Change>, conflicts: seq<Conflict>)

  /** The characters of everything that trimming leaves alone, and of an encoded summary. */
  datatype Encoding = Encoding(fixed: nat, summaryLength: string -> nat)

  // ---- cost ----

  function PatternSizes(ps: seq<Pattern>): nat { if ps == [] then 0 else ps[0].size + PatternSizes(ps[1..]) }
  function ChangeSizes(cs: seq<Change>): nat { if cs == [] then 0 else cs[0].size + ChangeSizes(cs[1..]) }
  function ConflictSizes(cs: seq<Conflict>): nat { if cs == [] then 0 else cs[0].size + ConflictSizes(cs[1..]) }

  /** The separators of a JSON array of n elements. */
  function Commas(n: nat): nat { if n == 0 then 0 else n - 1 }

  function Characters(b: Bundle, e: Encoding): nat {
    e.fixed + e.summaryLength(b.summary)
    + PatternSizes(b.patterns) + Commas(|b.patterns|)
    + ChangeSizes(b.changes) + Commas(|b.changes|)
    + ConflictSizes(b.conflicts) + Commas(|b.conflicts|)
  }

  /** estimateMessagesTokens('', JSON.stringify(bundle), 0).inputTokens. */
  function Tokens(b: Bundle, e: Encoding): nat {
    var t := (Characters(b, e) + 3) / 4;
    if t < 1 then 1 else t
  }

  lemma {:induction false} SizesAppend(b: Bundle, p: Pattern, c: Change, x: Conflict)
    ensures PatternSizes(b.patterns + [p]) == PatternSizes(b.patterns) + p.size
    ensures ChangeSizes(b.changes + [c]) == ChangeSizes(b.changes) + c.size
    ensures ConflictSizes(b.conflicts + [x]) == ConflictSizes(b.conflicts) + x.size
    decreases |b.patterns| + |b.changes| + |b.conflicts|
  {
    if b.patterns != [] || b.changes != [] || b.conflicts != [] {
      var rest := Bundle("", Tail(b.patterns), Tail(b.changes), Tail(b.conflicts));
      SizesAppend(rest, p, c, x);
      assert b.patterns != [] ==> (b.patterns + [p])[1..] == rest.patterns + [p];
      assert b.changes != [] ==> (b.changes + [c])[1..] == rest.changes + [c];
      assert b.conflicts != [] ==> (b.conflicts + [x])[1..] == rest.conflicts + [x];
    }
  }

  function Tail<T>(s: seq<T>): seq<T> { if s == [] then [] else s[1..] }

  /** Every element counts with its own size and, behind another, one comma. */
  lemma EveryElementCounts(b: Bundle, p: Pattern, c: Change, x: Conflict, e: Encoding)
    ensures Characters(Bundle(b.summary, [], [], []), e) == e.fixed + e.summaryLength(b.summary)
    ensures Characters(b.(patterns := b.patterns + [p]), e)
         == Characters(b, e) + p.size + if b.patterns == [] then 0 else 1
    ensures Characters(b.(changes := b.changes + [c]), e)
         == Characters(b, e) + c.size + if b.changes == [] then 0 else 1
    ensures Characters(b.(conflicts := b.conflicts + [x]), e)
         == Characters(b, e) + x.size + if b.conflicts == [] then 0 else 1
  {
    SizesAppend(b, p, c, x);
  }

  /** A token holds four characters, and there is at least one token. */
  lemma TokensHoldFour(b: Bundle, e: Encoding)
    ensures Tokens(b, e) >= 1 && 4 * Tokens(b, e) >= Characters(b, e)
    ensures Tokens(b, e) > 1 ==> 4 * (Tokens(b, e) - 1) < Characters(b, e)
  {
    hide Characters;
  }

  // ---- sorting ----

  function PriorityRank(p: Option<Priority>): nat {
    match p
    case Some(High) => 3
    case Some(Medium) => 2
    case Some(Low) => 1
    case None => 0
  }

  /** affectedCount ?? count ?? 0. */
  function Weight(p: Pattern): int { p.affectedCount.GetOr(p.count) }

  predicate Heavier(a: Pattern, b: Pattern) { Weight(a) > Weight(b) }

  predicate MoreUrgent(a: Change, b: Change) {
    || PriorityRank(a.priority) > PriorityRank(b.priority)
    || (PriorityRank(a.priority) == PriorityRank(b.priority) && a.affectedCount.GetOr(0) > b.affectedCount.GetOr(0))
  }

  /** Stable insertion: behind everything strictly ahead of it, before its equals. */
  function InsertPattern(p: Pattern, ps: seq<Pattern>): seq<Pattern> {
    if ps == [] || !Heavier(ps[0], p) then [p] + ps else [ps[0]] + InsertPattern(p, ps[1..])
  }

  function SortPatterns(ps: seq<Pattern>): seq<Pattern> {
    if ps == [] then [] else InsertPattern(ps[0], SortPatterns(ps[1..]))
  }

  function InsertChange(c: Change, cs: seq<Change>): seq<Change> {
    if cs == [] || !MoreUrgent(cs[0], c) then [c] + cs else [cs[0]] + InsertChange(c, cs[1..])
  }

  function SortChanges(cs: seq<Change>): seq<Change> {
    if cs == [] then [] else InsertChange(cs[0], SortChanges(cs[1..]))
  }

  ghost predicate PatternsSorted(ps: seq<Pattern>) {
    forall i, j :: 0 <= i < j < |ps| ==> !Heavier(ps[j], ps[i])
  }

  ghost predicate ChangesSorted(cs: seq<Change>) {
    forall i, j :: 0 <= i < j < |cs| ==> !MoreUrgent(cs[j], cs[i])
  }

  lemma {:induction false} InsertPatternSorts(p: Pattern, ps: seq<Pattern>)
    requires PatternsSorted(ps)
    ensures PatternsSorted(InsertPattern(p, ps))
  {
    hide Weight, PatternSizes;
    if ps != [] && Heavier(ps[0], p) {
      InsertPatternSorts(p, ps[1..]);
      InsertPatternKeeps(p, ps[1..]);
      var r := InsertPattern(p, ps[1..]);
      forall j | 0 <= j < |r| ensures !Heavier(r[j], ps[0]) {
        assert r[j] in multiset(r);
        assert r[j] == p || r[j] in ps[1..];
      }
    } else {
      forall j | 0 <= j < |ps| ensures !Heavier(ps[j], p) {
        assert j > 0 ==> !Heavier(ps[j], ps[0]);
      }
    }
  }

  lemma {:induction false} InsertPatternKeeps(p: Pattern, ps: seq<Pattern>)
    ensures multiset(InsertPattern(p, ps)) == multiset(ps) + multiset{p}
    ensures PatternSizes(InsertPattern(p, ps)) == PatternSizes(ps) + p.size
  {
    hide Heavier;
    if ps != [] && Heavier(ps[0], p) {
      InsertPatternKeeps(p, ps[1..]);
      assert ps == [ps[0]] + ps[1..];
    } else {
      assert ([p] + ps)[1..] == ps;
    }
  }

  /** Sorting patterns by weight only reorders them. */
  lemma {:induction false} SortPatternsSorts(ps: seq<Pattern>)
    ensures PatternsSorted(SortPatterns(ps)) && multiset(SortPatterns(ps)) == multiset(ps)
    ensures |SortPatterns(ps)| == |ps| && PatternSizes(SortPatterns(ps)) == PatternSizes(ps)
  {
    if ps != [] {
      SortPatternsSorts(ps[1..]);
      InsertPatternSorts(ps[0], SortPatterns(ps[1..]));
      InsertPatternKeeps(ps[0], SortPatterns(ps[1..]));
      assert ps == [ps[0]] + ps[1..];
      assert |multiset(SortPatterns(ps))| == |multiset(ps)|;
    }
  }

  lemma {:induction false} InsertPatternAt(p: Pattern, ps: seq<Pattern>) returns (i: nat)
    ensures i <= |ps| && InsertPattern(p, ps) == ps[..i] + [p] + ps[i..]
    ensures forall k :: 0 <= k < i ==> Heavier(ps[k], p)
    ensures i < |ps| ==> !Heavier(ps[i], p)
  {
    i := 0;
    if ps != [] && Heavier(ps[0], p) {
      i := InsertPatternAt(p, ps[1..]);
      i := i + 1;
    }
  }

  /** The affected count decides, or the plain count where there is none; equals stay in their order. */
  predicate PatternFirst(a: Pattern, i: nat, b: Pattern, j: nat) {
    var x := if a.affectedCount.Some? then a.affectedCount.value else a.count;
    var y := if b.affectedCount.Some? then b.affectedCount.value else b.count;
    x > y || (x == y && i < j)
  }

  ghost predicate PatternsStable(ps: seq<Pattern>, at: seq<nat>, r: seq<Pattern>) {
    && |at| == |r| == |ps|
    && (forall k :: 0 <= k < |at| ==> at[k] < |ps| && r[k] == ps[at[k]])
    && forall k, l :: 0 <= k < l < |at| ==> PatternFirst(r[k], at[k], r[l], at[l])
  }

  /** Places after one element was put in front of the list and came i-th. */
  function Moved(at: seq<nat>, i: nat): (r: seq<nat>)
    requires i <= |at|
    ensures |r| == |at| + 1
    ensures forall k :: 0 <= k < |r| ==> r[k] == if k < i then at[k] + 1 else if k == i then 0 else at[k - 1] + 1
  {
    var later := seq(|at|, k requires 0 <= k < |at| => at[k] + 1);
    later[..i] + [0] + later[i..]
  }

  /** The k-th element once x was put i-th, and where it was when x stood in front. */
  function Pick<T>(rest: seq<T>, x: T, i: nat, k: nat): T
    requires i <= |rest| && k <= |rest|
  {
    if k < i then rest[k] else if k == i then x else rest[k - 1]
  }

  function PickAt(at: seq<nat>, i: nat, k: nat): nat
    requires i <= |at| && k <= |at|
  {
    if k < i then at[k] + 1 else if k == i then 0 else at[k - 1] + 1
  }

  lemma PlacesMoved<T>(xs: seq<T>, at: seq<nat>, rest: seq<T>, i: nat)
    requires xs != [] && i <= |at| == |rest| == |xs| - 1
    requires forall k :: 0 <= k < |at| ==> at[k] < |xs[1..]| && rest[k] == xs[1..][at[k]]
    ensures
      var r, to := rest[..i] + [xs[0]] + rest[i..], Moved(at, i);
      && |to| == |r| == |xs|
      && (forall k :: 0 <= k < |to| ==> to[k] < |xs| && r[k] == xs[to[k]])
      && (forall k :: 0 <= k < |to| ==> r[k] == Pick(rest, xs[0], i, k) && to[k] == PickAt(at, i, k))
  {
  }

  lemma PatternInserted(ps: seq<Pattern>, at: seq<nat>, rest: seq<Pattern>, i: nat)
    requires ps != [] && PatternsStable(ps[1..], at, rest) && i <= |rest|
    requires forall k :: 0 <= k < i ==> Heavier(rest[k], ps[0])
    requires i < |rest| ==> !Heavier(rest[i], ps[0])
    ensures PatternsStable(ps, Moved(at, i), rest[..i] + [ps[0]] + rest[i..])
  {
    hide Heavier, PatternFirst, Moved, Pick, PickAt;
    var r, to := rest[..i] + [ps[0]] + rest[i..], Moved(at, i);
    PlacesMoved(ps, at, rest, i);
    forall k, l | 0 <= k < l < |to| ensures PatternFirst(r[k], to[k], r[l], to[l]) {
      PatternPair(ps[0], at, rest, i, k, l);
    }
  }

  lemma PatternPair(p: Pattern, at: seq<nat>, rest: seq<Pattern>, i: nat, k: nat, l: nat)
    requires i <= |rest| == |at| && k < l <= |rest|
    requires forall k :: 0 <= k < i ==> Heavier(rest[k], p)
    requires i < |rest| ==> !Heavier(rest[i], p)
    requires forall k, l :: 0 <= k < l < |rest| ==> PatternFirst(rest[k], at[k], rest[l], at[l])
    ensures PatternFirst(Pick(rest, p, i, k), PickAt(at, i, k), Pick(rest, p, i, l), PickAt(at, i, l))
  {
    hide Heavier, PatternFirst;
    if k != i && l != i {
      var k', l' := if k < i then k else k - 1, if l < i then l else l - 1;
      ShiftedPattern(rest[k'], at[k'], rest[l'], at[l']);
    } else if l == i {
      HeavierFirst(rest[k], at[k] + 1, p, 0);
    } else {
      NewPatternFirst(p, rest, at, i, l - 1);
    }
  }

  lemma NewPatternFirst(p: Pattern, rest: seq<Pattern>, at: seq<nat>, i: nat, l: nat)
    requires i <= l < |rest| == |at| && !Heavier(rest[i], p)
    requires i < l ==> PatternFirst(rest[i], at[i], rest[l], at[l])
    ensures PatternFirst(p, 0, rest[l], at[l] + 1)
  {
    hide Heavier, PatternFirst;
    HeavierFirst(p, 0, rest[i], at[i] + 1);
    if i < l {
      FirstPatternOfThree(p, rest[i], at[i], rest[l], at[l], at[l] + 1);
    }
  }

  lemma ShiftedPattern(a: Pattern, i: nat, b: Pattern, j: nat)
    ensures PatternFirst(a, i + 1, b, j + 1) <==> PatternFirst(a, i, b, j)
  {
  }

  lemma HeavierFirst(a: Pattern, i: nat, b: Pattern, j: nat)
    ensures Heavier(a, b) ==> PatternFirst(a, i, b, j)
    ensures !Heavier(b, a) && i < j ==> PatternFirst(a, i, b, j)
  {
  }

  lemma FirstPatternOfThree(a: Pattern, b: Pattern, i: nat, c: Pattern, j: nat, k: nat)
    requires !Heavier(b, a) && PatternFirst(b, i, c, j) && k > 0
    ensures PatternFirst(a, 0, c, k)
  {
  }

  /** It is a stable sort: at[k] is where the k-th pattern was. */
  lemma {:induction false} SortPatternsStable(ps: seq<Pattern>) returns (at: seq<nat>)
    ensures PatternsStable(ps, at, SortPatterns(ps))
  {
    at := [];
    if ps != [] {
      hide PatternsStable, Heavier, Moved;
      var rest := SortPatterns(ps[1..]);
      var later := SortPatternsStable(ps[1..]);
      var i := InsertPatternAt(ps[0], rest);
      PatternInserted(ps, later, rest, i);
      assert |later| == |rest| by { PatternPlaces(ps[1..], later, rest); }
      at := Moved(later, i);
    }
  }

  lemma PatternPlaces(ps: seq<Pattern>, at: seq<nat>, r: seq<Pattern>)
    requires PatternsStable(ps, at, r)
    ensures |at| == |r| == |ps|
  {
  }

  lemma {:induction false} InsertChangeSorts(c: Change, cs: seq<Change>)
    requires ChangesSorted(cs)
    ensures ChangesSorted(InsertChange(c, cs))
  {
    hide MoreUrgent, ChangeSizes;
    if cs != [] && MoreUrgent(cs[0], c) {
      InsertChangeSorts(c, cs[1..]);
      InsertChangeKeeps(c, cs[1..]);
      var r := InsertChange(c, cs[1..]);
      forall j | 0 <= j < |r| ensures !MoreUrgent(r[j], cs[0]) {
        assert r[j] in multiset(r);
        assert r[j] == c || r[j] in cs[1..];
        UrgencyOrders(cs[0], c, c);
      }
    } else {
      forall j | 0 <= j < |cs| ensures !MoreUrgent(cs[j], c) {
        UrgencyOrders(cs[j], cs[0], c);
      }
    }
  }

  lemma {:induction false} InsertChangeKeeps(c: Change, cs: seq<Change>)
    ensures multiset(InsertChange(c, cs)) == multiset(cs) + multiset{c}
    ensures ChangeSizes(InsertChange(c, cs)) == ChangeSizes(cs) + c.size
  {
    hide MoreUrgent;
    if cs != [] && MoreUrgent(cs[0], c) {
      InsertChangeKeeps(c, cs[1..]);
      assert cs == [cs[0]] + cs[1..];
    } else {
      assert ([c] + cs)[1..] == cs;
    }
  }

  lemma UrgencyOrders(a: Change, b: Change, c: Change)
    ensures !MoreUrgent(a, b) && !MoreUrgent(b, c) ==> !MoreUrgent(a, c)
    ensures MoreUrgent(a, b) ==> !MoreUrgent(b, a)
  {
  }

  lemma {:induction false} SortChangesSorts(cs: seq<Change>)
    ensures ChangesSorted(SortChanges(cs)) && multiset(SortChanges(cs)) == multiset(cs)
    ensures |SortChanges(cs)| == |cs| && ChangeSizes(SortChanges(cs)) == ChangeSizes(cs)
  {
    if cs != [] {
      SortChangesSorts(cs[1..]);
      InsertChangeSorts(cs[0], SortChanges(cs[1..]));
      InsertChangeKeeps(cs[0], SortChanges(cs[1..]));
      assert cs == [cs[0]] + cs[1..];
      assert |multiset(SortChanges(cs))| == |multiset(cs)|;
    }
  }

  lemma {:induction false} InsertChangeAt(c: Change, cs: seq<Change>) returns (i: nat)
    ensures i <= |cs| && InsertChange(c, cs) == cs[..i] + [c] + cs[i..]
    ensures forall k :: 0 <= k < i ==> MoreUrgent(cs[k], c)
    ensures i < |cs| ==> !MoreUrgent(cs[i], c)
  {
    i := 0;
    if cs != [] && MoreUrgent(cs[0], c) {
      i := InsertChangeAt(c, cs[1..]);
      i := i + 1;
    }
  }

  /** High before medium before low before none. */
  predicate Outranks(a: Option<Priority>, b: Option<Priority>) {
    match a
    case Some(High) => b != Some(High)
    case Some(Medium) => b == Some(Low) || b == None
    case Some(Low) => b == None
    case None => false
  }

  /** Priority decides, then the affected count; equals stay in their order. */
  predicate ChangeFirst(a: Change, i: nat, b: Change, j: nat) {
    var x := if a.affectedCount.Some? then a.affectedCount.value else 0;
    var y := if b.affectedCount.Some? then b.affectedCount.value else 0;
    Outranks(a.priority, b.priority) || (a.priority == b.priority && (x > y || (x == y && i < j)))
  }

  ghost predicate ChangesStable(cs: seq<Change>, at: seq<nat>, r: seq<Change>) {
    && |at| == |r| == |cs|
    && (forall k :: 0 <= k < |at| ==> at[k] < |cs| && r[k] == cs[at[k]])
    && forall k, l :: 0 <= k < l < |at| ==> ChangeFirst(r[k], at[k], r[l], at[l])
  }

  lemma ChangeInserted(cs: seq<Change>, at: seq<nat>, rest: seq<Change>, i: nat)
    requires cs != [] && ChangesStable(cs[1..], at, rest) && i <= |rest|
    requires forall k :: 0 <= k < i ==> MoreUrgent(rest[k], cs[0])
    requires i < |rest| ==> !MoreUrgent(rest[i], cs[0])
    ensures ChangesStable(cs, Moved(at, i), rest[..i] + [cs[0]] + rest[i..])
  {
    hide MoreUrgent, ChangeFirst, Moved, Pick, PickAt;
    var r, to := rest[..i] + [cs[0]] + rest[i..], Moved(at, i);
    PlacesMoved(cs, at, rest, i);
    forall k, l | 0 <= k < l < |to| ensures ChangeFirst(r[k], to[k], r[l], to[l]) {
      ChangePair(cs[0], at, rest, i, k, l);
    }
  }

  lemma ChangePair(c: Change, at: seq<nat>, rest: seq<Change>, i: nat, k: nat, l: nat)
    requires i <= |rest| == |at| && k < l <= |rest|
    requires forall k :: 0 <= k < i ==> MoreUrgent(rest[k], c)
    requires i < |rest| ==> !MoreUrgent(rest[i], c)
    requires forall k, l :: 0 <= k < l < |rest| ==> ChangeFirst(rest[k], at[k], rest[l], at[l])
    ensures ChangeFirst(Pick(rest, c, i, k), PickAt(at, i, k), Pick(rest, c, i, l), PickAt(at, i, l))
  {
    hide MoreUrgent, ChangeFirst;
    if k != i && l != i {
      var k', l' := if k < i then k else k - 1, if l < i then l else l - 1;
      ShiftedChange(rest[k'], at[k'], rest[l'], at[l']);
    } else if l == i {
      UrgentFirst(rest[k], at[k] + 1, c, 0);
    } else {
      NewChangeFirst(c, rest, at, i, l - 1);
    }
  }

  lemma NewChangeFirst(c: Change, rest: seq<Change>, at: seq<nat>, i: nat, l: nat)
    requires i <= l < |rest| == |at| && !MoreUrgent(rest[i], c)
    requires i < l ==> ChangeFirst(rest[i], at[i], rest[l], at[l])
    ensures ChangeFirst(c, 0, rest[l], at[l] + 1)
  {
    hide MoreUrgent, ChangeFirst;
    UrgentFirst(c, 0, rest[i], at[i] + 1);
    if i < l {
      FirstOfThree(c, rest[i], at[i], rest[l], at[l], at[l] + 1);
    }
  }

  lemma ShiftedChange(a: Change, i: nat, b: Change, j: nat)
    ensures ChangeFirst(a, i + 1, b, j + 1) <==> ChangeFirst(a, i, b, j)
  {
  }

  lemma UrgentFirst(a: Change, i: nat, b: Change, j: nat)
    ensures MoreUrgent(a, b) ==> ChangeFirst(a, i, b, j)
    ensures !MoreUrgent(b, a) && i < j ==> ChangeFirst(a, i, b, j)
  {
  }

  lemma FirstOfThree(a: Change, b: Change, i: nat, c: Change, j: nat, k: nat)
    requires !MoreUrgent(b, a) && ChangeFirst(b, i, c, j) && k > 0
    ensures ChangeFirst(a, 0, c, k)
  {
  }

  /** It is a stable sort: at[k] is where the k-th change was. */
  lemma {:induction false} SortChangesStable(cs: seq<Change>) returns (at: seq<nat>)
    ensures ChangesStable(cs, at, SortChanges(cs))
  {
    at := [];
    if cs != [] {
      hide ChangesStable, MoreUrgent, Moved;
      var rest := SortChanges(cs[1..]);
      var later := SortChangesStable(cs[1..]);
      var i := InsertChangeAt(cs[0], rest);
      ChangeInserted(cs, later, rest, i);
      assert |later| == |rest| by { ChangePlaces(cs[1..], later, rest); }
      at := Moved(later, i);
    }
  }

  lemma ChangePlaces(cs: seq<Change>, at: seq<nat>, r: seq<Change>)
    requires ChangesStable(cs, at, r)
    ensures |at| == |r| == |cs|
  {
  }

  // ---- trimming ----

  function Ids(ps: seq<Pattern>): set<string> {
    set p | p in ps && p.id.Some? :: p.id.value
  }

  /** The change addresses no pattern in particular, or one that is kept. */
  predicate Supported(c: Change, kept: set<string>) {
    c.addresses == [] || exists i :: 0 <= i < |c.addresses| && c.addresses[i] in kept
  }

  function OnlySupported(cs: seq<Change>, kept: set<string>): (r: seq<Change>)
    ensures |r| <= |cs|
    ensures forall c :: c in r <==> c in cs && Supported(c, kept)
  {
    if cs == [] then []
    else
      assert cs == [cs[0]] + cs[1..];
      (if Supported(cs[0], kept) then [cs[0]] else []) + OnlySupported(cs[1..], kept)
  }

  lemma {:induction false} OnlySupportedSorted(cs: seq<Change>, kept: set<string>)
    requires ChangesSorted(cs)
    ensures ChangesSorted(OnlySupported(cs, kept))
  {
    if cs != [] {
      OnlySupportedSorted(cs[1..], kept);
      var r := OnlySupported(cs[1..], kept);
      forall j | 0 <= j < |r| ensures !MoreUrgent(r[j], cs[0]) {
        assert r[j] in r;
        assert r[j] in cs[1..];
      }
    }
  }

  /** Sorted, with a short summary and at most five conflicts: where trimming starts. */
  function Start(bundle: Bundle): Bundle {
    Bundle(TruncateLongText(bundle.summary, 1200, TRUNCATION_MARKER),
           SortPatterns(bundle.patterns),
           SortChanges(bundle.changes),
           if |bundle.conflicts| > 5 then bundle.conflicts[..5] else bundle.conflicts)
  }

  predicate CanDrop(b: Bundle) {
    |b.changes| > 1 || |b.patterns| > 1
  }

  /** One turn: the least urgent change goes first while changes are no fewer than patterns;
      otherwise the lightest pattern goes, with the changes that addressed only it. */
  function Drop(b: Bundle): Bundle
    requires CanDrop(b)
  {
    if |b.changes| >= |b.patterns| then b.(changes := b.changes[..|b.changes| - 1])
    else
      var kept := b.patterns[..|b.patterns| - 1];
      b.(patterns := kept, changes := OnlySupported(b.changes, Ids(kept)))
  }

  lemma {:induction false} SupportedKeepOrder(cs: seq<Change>, kept: set<string>) returns (at: seq<nat>)
    ensures Places(at, cs, OnlySupported(cs, kept))
  {
    at := [];
    if cs != [] {
      hide Supported, Places, Shifted;
      var later := SupportedKeepOrder(cs[1..], kept);
      PlacesInFront(later, cs[1..], OnlySupported(cs[1..], kept), cs[0], Supported(cs[0], kept));
      assert cs == [cs[0]] + cs[1..];
      at := Shifted(later, Supported(cs[0], kept));
    }
  }

  /** What a turn takes away: while there are as many changes as patterns, the last change and nothing
      else; otherwise the last pattern, and of the changes exactly those that address patterns but
      none of the patterns left. at[k] is where the k-th change left was. */
  lemma TurnTakesAway(b: Bundle) returns (at: seq<nat>)
    requires CanDrop(b)
    ensures Drop(b).summary == b.summary && Drop(b).conflicts == b.conflicts
    ensures |b.changes| >= |b.patterns| ==>
              Drop(b).patterns == b.patterns && Drop(b).changes == b.changes[..|b.changes| - 1]
    ensures |b.changes| < |b.patterns| ==>
              Drop(b).patterns == b.patterns[..|b.patterns| - 1]
              && forall c :: c in b.changes ==>
                   (c !in Drop(b).changes
                    <==> c.addresses != [] && forall p :: p in Drop(b).patterns && p.id.Some? ==>
                                                            p.id.value !in c.addresses)
    ensures Places(at, b.changes, Drop(b).changes)
  {
    if |b.changes| >= |b.patterns| {
      at := seq(|b.changes| - 1, k => k);
    } else {
      at := SupportedKeepOrder(b.changes, Ids(b.patterns[..|b.patterns| - 1]));
    }
  }

  /** A run of turns, each taken because the bundle was still over budget. */
  ghost predicate Trimming(trail: seq<Bundle>, budget: int, e: Encoding) {
    && trail != []
    && forall i :: 0 <= i < |trail| - 1 ==> OneTurn(trail[i], trail[i + 1], budget, e)
  }

  ghost predicate OneTurn(b: Bundle, next: Bundle, budget: int, e: Encoding) {
    Tokens(b, e) > budget && CanDrop(b) && next == Drop(b)
  }

  /** The last resort, once nothing more can be dropped. */
  function Close(b: Bundle, budget: int, e: Encoding): Bundle {
    if Tokens(b, e) <= budget then b
    else b.(summary := TruncateLongText(b.summary, 400, TRUNCATION_MARKER), conflicts := [])
  }

  /** Evidence that what was kept is the right part of the original. */
  ghost predicate Kept(original: Bundle, b: Bundle) {
    && b.patterns <= SortPatterns(original.patterns)
    && (original.patterns != [] ==> b.patterns != [])
    && ChangesSorted(b.changes)
    && (forall c :: c in b.changes ==> c in original.changes)
    && (|b.patterns| < |original.patterns| ==> forall c :: c in b.changes ==> Supported(c, Ids(b.patterns)))
  }

  /** fitEvidenceBundleToBudget. An original within budget comes back as it is. Any other is
      trimmed turn by turn, stopping as soon as it fits or is down to one pattern and one change;
      kept patterns are a non-empty prefix of the weight-sorted list; once a pattern was dropped
      every kept change addresses a kept pattern or none; and truncation is reported exactly
      when the original was over budget. */
  method FitEvidenceBundleToBudget(bundle: Bundle, budget: int, e: Encoding)
    returns (r: Bundle, truncated: bool, originalTokens: nat, ghost trail: seq<Bundle>)
    ensures originalTokens == Tokens(bundle, e)
    ensures truncated <==> originalTokens > budget
    ensures !truncated ==> r == bundle
    ensures truncated ==>
              && Trimming(trail, budget, e) && trail[0] == Start(bundle)
              && (Tokens(trail[|trail| - 1], e) <= budget || !CanDrop(trail[|trail| - 1]))
              && r == Close(trail[|trail| - 1], budget, e)
    ensures truncated ==> forall i :: 0 <= i < |trail| - 1 ==>
              && Tokens(trail[i], e) > budget && (|trail[i].changes| > 1 || |trail[i].patterns| > 1)
              && trail[i + 1] == Drop(trail[i])
    ensures truncated ==>
              var first := TruncateLongText(bundle.summary, 1200, TRUNCATION_MARKER);
              if Tokens(trail[|trail| - 1], e) <= budget then
                r.summary == first && |r.conflicts| == if |bundle.conflicts| < 5 then |bundle.conflicts| else 5
              else r.summary == TruncateLongText(first, 400, TRUNCATION_MARKER) && r.conflicts == []
    ensures truncated ==> Kept(bundle, r) && r.conflicts <= bundle.conflicts && |r.conflicts| <= 5
    ensures Tokens(r, e) <= budget || (|r.patterns| <= 1 && |r.changes| <= 1 && r.conflicts == [])
  {
    hide SortPatterns, SortChanges, Characters, TruncateLongText, Kept, OneTurn, Ids;
    originalTokens, trail := Tokens(bundle, e), [];
    if originalTokens <= budget {
      return bundle, false, originalTokens, trail;
    }
    var fitted := Bundle(
      TruncateLongText(bundle.summary, 1200, TRUNCATION_MARKER),
      SortPatterns(bundle.patterns),
      SortChanges(bundle.changes),
      if |bundle.conflicts| > 5 then bundle.conflicts[..5] else bundle.conflicts);
    truncated := fitted.summary != bundle.summary || |fitted.conflicts| != |bundle.conflicts|;
    SortingCostsNothing(bundle, fitted, e);
    SortedKeeps(bundle, fitted);
    trail := [fitted];

    while Tokens(fitted, e) > budget && (|fitted.changes| > 1 || |fitted.patterns| > 1)
      invariant Kept(bundle, fitted)
      invariant fitted.conflicts <= bundle.conflicts
      invariant |fitted.conflicts| == if |bundle.conflicts| < 5 then |bundle.conflicts| else 5
      invariant fitted.summary == TruncateLongText(bundle.summary, 1200, TRUNCATION_MARKER)
      invariant truncated || Tokens(fitted, e) == originalTokens
      invariant Trimming(trail, budget, e) && trail[0] == Start(bundle) && trail[|trail| - 1] == fitted
      decreases |fitted.changes| + |fitted.patterns|
    {
      ghost var before := fitted;
      truncated := true;
      if |fitted.changes| >= |fitted.patterns| && |fitted.changes| > 1 {
        DropChangeKeeps(bundle, fitted);
        fitted := fitted.(changes := fitted.changes[..|fitted.changes| - 1]);
      } else if |fitted.patterns| > 1 {
        DropPatternKeeps(bundle, fitted);
        var keptPatterns := fitted.patterns[..|fitted.patterns| - 1];
        fitted := fitted.(patterns := keptPatterns, changes := OnlySupported(fitted.changes, Ids(keptPatterns)));
      }
      TurnExtends(trail, fitted, budget, e);
      trail := trail + [fitted];
    }

    if Tokens(fitted, e) > budget {
      truncated := true;
      CloseKeeps(bundle, fitted, budget, e);
      fitted := fitted.(summary := TruncateLongText(fitted.summary, 400, TRUNCATION_MARKER), conflicts := []);
    }
    TurnsAre(trail, budget, e);
    return fitted, truncated, originalTokens, trail;
  }

  lemma TurnsAre(trail: seq<Bundle>, budget: int, e: Encoding)
    requires Trimming(trail, budget, e)
    ensures forall i :: 0 <= i < |trail| - 1 ==>
              && Tokens(trail[i], e) > budget && (|trail[i].changes| > 1 || |trail[i].patterns| > 1)
              && trail[i + 1] == Drop(trail[i])
  {
    hide Characters, Drop;
    forall i | 0 <= i < |trail| - 1
      ensures Tokens(trail[i], e) > budget && (|trail[i].changes| > 1 || |trail[i].patterns| > 1)
        && trail[i + 1] == Drop(trail[i])
    {
      assert OneTurn(trail[i], trail[i + 1], budget, e);
    }
  }

  lemma TurnExtends(trail: seq<Bundle>, next: Bundle, budget: int, e: Encoding)
    requires Trimming(trail, budget, e)
    requires Tokens(trail[|trail| - 1], e) > budget && CanDrop(trail[|trail| - 1]) && next == Drop(trail[|trail| - 1])
    ensures Trimming(trail + [next], budget, e)
  {
  }

  lemma CloseKeeps(original: Bundle, b: Bundle, budget: int, e: Encoding)
    requires Kept(original, b)
    ensures Kept(original, Close(b, budget, e))
  {
    hide SortPatterns, Supported, Ids, MoreUrgent, TruncateLongText, Characters;
  }

  lemma SortingCostsNothing(bundle: Bundle, fitted: Bundle, e: Encoding)
    requires fitted.patterns == SortPatterns(bundle.patterns) && fitted.changes == SortChanges(bundle.changes)
    requires fitted.conflicts <= bundle.conflicts
    ensures fitted.summary == bundle.summary && |fitted.conflicts| == |bundle.conflicts| ==>
        Tokens(fitted, e) == Tokens(bundle, e)
  {
    hide SortPatterns, SortChanges, PatternSizes, ChangeSizes, ConflictSizes;
    SortPatternsSorts(bundle.patterns);
    SortChangesSorts(bundle.changes);
    assert fitted.conflicts == bundle.conflicts[..|fitted.conflicts|];
    assert bundle.conflicts[..|bundle.conflicts|] == bundle.conflicts;
  }

  lemma SortedKeeps(bundle: Bundle, fitted: Bundle)
    requires fitted.patterns == SortPatterns(bundle.patterns) && fitted.changes == SortChanges(bundle.changes)
    ensures Kept(bundle, fitted)
  {
    hide SortPatterns, SortChanges;
    SortPatternsSorts(bundle.patterns);
    SortChangesSorts(bundle.changes);
    forall c | c in fitted.changes ensures c in bundle.changes {
      assert c in multiset(fitted.changes);
    }
  }

  lemma DropChangeKeeps(bundle: Bundle, b: Bundle)
    requires Kept(bundle, b) && |b.changes| > 1
    ensures Kept(bundle, b.(changes := b.changes[..|b.changes| - 1]))
  {
    hide SortPatterns, Supported, MoreUrgent;
    var changes := b.changes[..|b.changes| - 1];
    assert forall c :: c in changes ==> c in b.changes;
  }

  lemma DropPatternKeeps(bundle: Bundle, b: Bundle)
    requires Kept(bundle, b) && |b.patterns| > 1
    ensures
      var kept := b.patterns[..|b.patterns| - 1];
      Kept(bundle, b.(patterns := kept, changes := OnlySupported(b.changes, Ids(kept))))
  {
    hide SortPatterns, Supported, MoreUrgent, Ids;
    OnlySupportedSorted(b.changes, Ids(b.patterns[..|b.patterns| - 1]));
  }
}
