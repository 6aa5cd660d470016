/**
 The keys of a plain JavaScript object: which assignments create a property, and in which order
 properties are enumerated.
 */
module RecordKeys {
  import opened OrderedSets
  import TpmMember

  /** Assigning to this key sets the prototype and creates no property. */
  const PROTO := "__proto__"

  predicate AllDigits(l: string) {
    forall i :: 0 <= i < |l| ==> TpmMember.IsDigit(l[i])
  }

  /** The number that a canonical decimal stands for, and -1 for any other key. */
  function Number(l: string): int {
    if l != "" && AllDigits(l) && (l == "0" || l[0] != '0') then TpmMember.ParseDigits(l) else -1
  }

  /** Array indices are enumerated before all other keys: canonical decimals below 2^32 - 1. */
  predicate IsIndex(l: string) {
    0 <= Number(l) < 0xFFFF_FFFF
  }

  lemma {:induction false} DecimalIsCanonical(n: nat)
    ensures AllDigits(TpmMember.Decimal(n)) && (n > 0 ==> TpmMember.Decimal(n)[0] != '0')
    ensures n == 0 ==> TpmMember.Decimal(n) == "0"
  {
    if n >= 10 {
      DecimalIsCanonical(n / 10);
    }
  }

  lemma {:induction false} CanonicalIsDecimal(l: string)
    requires l != "" && AllDigits(l) && (l == "0" || l[0] != '0')
    ensures l == TpmMember.Decimal(TpmMember.ParseDigits(l))
    ensures l != "0" ==> TpmMember.ParseDigits(l) >= 1
  {
    var init, last := l[..|l| - 1], l[|l| - 1];
    if |l| == 1 {
      assert init == [];
      assert TpmMember.ParseDigits(init) == 0;
    } else {
      CanonicalIsDecimal(init);
      assert l == init + [last];
    }
  }

  /** The keys enumerated as indices are the decimals of the numbers below 2^32 - 1. */
  lemma IndicesAreDecimals(l: string)
    ensures IsIndex(l) <==> exists n: nat :: n < 4294967295 && l == TpmMember.Decimal(n)
  {
    if IsIndex(l) {
      CanonicalIsDecimal(l);
    }
    if n: nat :| n < 4294967295 && l == TpmMember.Decimal(n) {
      DecimalIsCanonical(n);
      TpmMember.ParseInvertsDecimal(n);
    }
  }

  function KeepIf(labels: seq<string>, p: string -> bool): (r: seq<string>)
    ensures forall l :: l in r <==> l in labels && p(l)
    ensures Unique(labels) ==> Unique(r)
  {
    if labels == [] then []
    else
      var n := |labels| - 1;
      assert labels == labels[..n] + [labels[n]];
      assert Unique(labels) ==> labels[n] !in labels[..n];
      KeepIf(labels[..n], p) + (if p(labels[n]) then [labels[n]] else [])
  }

  /** What is kept stays in its order. */
  lemma {:induction false} KeptInOrder(labels: seq<string>, p: string -> bool) returns (at: seq<nat>)
    ensures Places(at, labels, KeepIf(labels, p))
  {
    at := [];
    if labels != [] {
      hide Places, KeepIf, IsIndex;
      var init, last := labels[..|labels| - 1], labels[|labels| - 1];
      assert labels == init + [last];
      at := KeptInOrder(init, p);
      KeepOneMore(init, last, p);
      PlacesBehind(at, init, KeepIf(init, p), last, p(last));
      at := if p(last) then at + [|init|] else at;
    }
  }

  lemma KeepOneMore(labels: seq<string>, last: string, p: string -> bool)
    ensures KeepIf(labels + [last], p) == if p(last) then KeepIf(labels, p) + [last] else KeepIf(labels, p)
  {
    assert (labels + [last])[..|labels|] == labels;
  }

  function InsertNumber(l: string, ls: seq<string>): (r: seq<string>)
    ensures multiset(r) == multiset(ls) + multiset{l}
  {
    if ls == [] || Number(l) <= Number(ls[0]) then [l] + ls
    else
      assert ls == [ls[0]] + ls[1..];
      [ls[0]] + InsertNumber(l, ls[1..])
  }

  function SortNumbers(ls: seq<string>): (r: seq<string>)
    ensures multiset(r) == multiset(ls)
  {
    if ls == [] then []
    else
      assert ls == [ls[0]] + ls[1..];
      InsertNumber(ls[0], SortNumbers(ls[1..]))
  }

  /** The order in which keys that were assigned in the given order are enumerated. */
  function RecordOrder(labels: seq<string>): seq<string> {
    SortNumbers(IndexKeys(labels)) + OtherKeys(labels)
  }

  function IndexKeys(labels: seq<string>): (r: seq<string>)
    ensures forall l :: l in r ==> IsIndex(l)
  {
    KeepIf(labels, l => IsIndex(l))
  }

  function OtherKeys(labels: seq<string>): (r: seq<string>)
    ensures forall l :: l in r ==> !IsIndex(l)
  {
    KeepIf(labels, l => !IsIndex(l))
  }

  lemma RecordOrderPermutes(labels: seq<string>)
    ensures multiset(RecordOrder(labels)) == multiset(labels)
  {
    hide IsIndex;
    PartsPermute(labels);
  }

  lemma {:induction false} PartsPermute(labels: seq<string>)
    ensures multiset(IndexKeys(labels)) + multiset(OtherKeys(labels)) == multiset(labels)
  {
    hide IsIndex;
    if labels != [] {
      PartsPermute(labels[..|labels| - 1]);
      assert labels == labels[..|labels| - 1] + [labels[|labels| - 1]];
    }
  }

  /** Every key is enumerated once. */
  lemma RecordOrderKeeps(labels: seq<string>)
    requires Unique(labels)
    ensures Unique(RecordOrder(labels)) && forall l :: l in RecordOrder(labels) <==> l in labels
  {
    hide RecordOrder;
    RecordOrderPermutes(labels);
    var r := RecordOrder(labels);
    forall l ensures l in r <==> l in labels {
      assert l in r <==> l in multiset(r);
      assert l in labels <==> l in multiset(labels);
    }
    forall i, j | 0 <= i < j < |r| ensures r[i] != r[j] {
      if r[i] == r[j] {
        CountInUnique(labels, r[i]);
        TwiceCounted(r, i, j);
        assert false;
      }
    }
  }

  lemma TwiceCounted(r: seq<string>, i: nat, j: nat)
    requires i < j < |r| && r[i] == r[j]
    ensures multiset(r)[r[i]] >= 2
  {
    assert r == r[..j] + [r[j]] + r[j + 1..];
    assert r[..j][i] == r[j];
    assert r[j] in multiset(r[..j]);
  }

  ghost predicate Ascending(ls: seq<string>) {
    forall i, j :: 0 <= i < j < |ls| ==> Number(ls[i]) <= Number(ls[j])
  }

  lemma {:induction false} InsertNumberSorts(l: string, ls: seq<string>)
    requires Ascending(ls)
    ensures Ascending(InsertNumber(l, ls))
  {
    hide Number;
    if ls != [] && Number(l) > Number(ls[0]) {
      InsertNumberSorts(l, ls[1..]);
      var r := InsertNumber(l, ls[1..]);
      forall k | 0 <= k < |r| ensures Number(ls[0]) <= Number(r[k]) {
        assert r[k] in multiset(r);
        assert r[k] == l || r[k] in ls[1..];
      }
    }
  }

  lemma {:induction false} SortNumbersSorts(ls: seq<string>)
    ensures Ascending(SortNumbers(ls))
  {
    hide Number;
    if ls != [] {
      SortNumbersSorts(ls[1..]);
      InsertNumberSorts(ls[0], SortNumbers(ls[1..]));
    }
  }

  /** Indices come first, ascending by their numbers; the other keys follow as they were assigned. */
  lemma IndicesComeFirst(labels: seq<string>)
    ensures
      var n := |SortNumbers(IndexKeys(labels))|;
      && n <= |RecordOrder(labels)| && Ascending(RecordOrder(labels)[..n])
      && (forall l :: l in RecordOrder(labels)[..n] ==> IsIndex(l))
      && (forall l :: l in RecordOrder(labels)[n..] ==> !IsIndex(l))
      && RecordOrder(labels)[n..] == KeepIf(labels, l => !IsIndex(l))
  {
    hide IsIndex, Number, IndexKeys, Ascending, SortNumbers;
    var indices := SortNumbers(IndexKeys(labels));
    SortNumbersSorts(IndexKeys(labels));
    assert RecordOrder(labels)[..|indices|] == indices && RecordOrder(labels)[|indices|..] == OtherKeys(labels);
    forall l | l in indices ensures IsIndex(l) {
      assert l in multiset(indices);
      assert l in multiset(IndexKeys(labels));
    }
  }
}
