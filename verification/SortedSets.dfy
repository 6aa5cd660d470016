/**
 Redis sorted sets as the limiter uses them: entries ordered by score, ties by member bytes.
 */
module SortedSets {
  import opened OrderedSets
  import opened TpmMember

  datatype Entry = Entry(score: int, member: string)

  /** Byte-wise member order, the tie break of equal scores. */
  predicate MemberBefore(a: string, b: string) {
    if a == [] then b != []
    else b != [] && (a[0] < b[0] || (a[0] == b[0] && MemberBefore(a[1..], b[1..])))
  }

  predicate Before(a: Entry, b: Entry) {
    a.score < b.score || (a.score == b.score && MemberBefore(a.member, b.member))
  }

  ghost predicate ScoreSorted(z: seq<Entry>) {
    forall i, j :: 0 <= i < j < |z| ==> z[i].score <= z[j].score
  }

  function Insert(z: seq<Entry>, e: Entry): (r: seq<Entry>)
    ensures multiset(r) == multiset(z) + multiset{e}
  {
    if z == [] then [e]
    else if Before(e, z[0]) then [e] + z
    else
      assert z == [z[0]] + z[1..];
      [z[0]] + Insert(z[1..], e)
  }

  function Without(z: seq<Entry>, member: string): (r: seq<Entry>)
    ensures (forall e :: e in z ==> e.member != member) ==> r == z
  {
    if z == [] then []
    else if z[0].member == member then Without(z[1..], member)
    else [z[0]] + Without(z[1..], member)
  }

  /** ZADD: a member already present is moved to its new score. */
  function ZAdd(z: seq<Entry>, score: int, member: string): seq<Entry> {
    Insert(Without(z, member), Entry(score, member))
  }

  /** What ZREMRANGEBYSCORE -inf cutoff leaves. */
  function Above(z: seq<Entry>, cutoff: int): (r: seq<Entry>)
    ensures |r| <= |z|
    ensures forall e :: e in r <==> e in z && e.score > cutoff
  {
    if z == [] then []
    else if z[0].score > cutoff then [z[0]] + Above(z[1..], cutoff)
    else Above(z[1..], cutoff)
  }

  /** What ZRANGEBYSCORE -inf cutoff returns. */
  function UpTo(z: seq<Entry>, cutoff: int): (r: seq<Entry>)
    ensures |r| <= |z|
  {
    if z == [] then []
    else if z[0].score <= cutoff then [z[0]] + UpTo(z[1..], cutoff)
    else UpTo(z[1..], cutoff)
  }

  function TokenSum(z: seq<Entry>): nat {
    if z == [] then 0 else MemberTokens(z[0].member) + TokenSum(z[1..])
  }

  lemma {:induction false} InsertSorted(z: seq<Entry>, e: Entry)
    requires ScoreSorted(z)
    ensures ScoreSorted(Insert(z, e))
  {
    hide MemberBefore;
    if z != [] && !Before(e, z[0]) {
      InsertSorted(z[1..], e);
      var r := Insert(z[1..], e);
      assert z == [z[0]] + z[1..];
      forall i | 0 <= i < |r| ensures z[0].score <= r[i].score {
        assert r[i] in multiset(r);
        assert r[i] == e || r[i] in z[1..];
      }
    }
  }

  lemma {:induction false} AboveSorted(z: seq<Entry>, cutoff: int)
    requires ScoreSorted(z)
    ensures ScoreSorted(Above(z, cutoff))
  {
    if z != [] {
      AboveSorted(z[1..], cutoff);
      var r := Above(z[1..], cutoff);
      forall i | 0 <= i < |r| ensures z[0].score <= r[i].score {
        assert r[i] in r;
        assert r[i] in z[1..];
      }
    }
  }

  /** The tokens of the expired range and of what remains add up: the incremental total is exact. */
  lemma {:induction false} SumSplits(z: seq<Entry>, cutoff: int)
    ensures TokenSum(UpTo(z, cutoff)) + TokenSum(Above(z, cutoff)) == TokenSum(z)
    ensures UpTo(z, cutoff) == [] ==> Above(z, cutoff) == z
  {
    if z != [] {
      SumSplits(z[1..], cutoff);
    }
  }

  lemma EmptySum()
    ensures TokenSum([]) == 0
  {
  }

  lemma SumFrom(z: seq<Entry>, i: nat)
    requires i < |z|
    ensures TokenSum(z[i..]) == MemberTokens(z[i].member) + TokenSum(z[i + 1..])
  {
    assert z[i..][1..] == z[i + 1..];
  }

  lemma {:induction false} SumConcat(a: seq<Entry>, b: seq<Entry>)
    ensures TokenSum(a + b) == TokenSum(a) + TokenSum(b)
  {
    if a == [] {
      assert a + b == b;
    } else {
      assert (a + b)[1..] == a[1..] + b;
      SumConcat(a[1..], b);
    }
  }

  /** Pruning commutes with reordering. */
  lemma {:induction false} AbovePermutes(z: seq<Entry>, cutoff: int, e: Entry)
    ensures multiset(Above(z, cutoff))[e] == if e.score > cutoff then multiset(z)[e] else 0
  {
    if z != [] {
      assert z == [z[0]] + z[1..];
      AbovePermutes(z[1..], cutoff, e);
    }
  }

  lemma SameAbove(a: seq<Entry>, b: seq<Entry>, cutoff: int)
    requires multiset(a) == multiset(b)
    ensures multiset(Above(a, cutoff)) == multiset(Above(b, cutoff))
  {
    forall e ensures multiset(Above(a, cutoff))[e] == multiset(Above(b, cutoff))[e] {
      AbovePermutes(a, cutoff, e);
      AbovePermutes(b, cutoff, e);
    }
  }

  lemma {:induction false} SameSum(a: seq<Entry>, b: seq<Entry>)
    requires multiset(a) == multiset(b)
    ensures |a| == |b| && TokenSum(a) == TokenSum(b)
  {
    if a == [] {
      assert |multiset(b)| == 0;
    } else {
      hide TokenSum;
      var i := TakeOut(a, b);
      var n := |a| - 1;
      SameSum(a[..n], b[..i] + b[i + 1..]);
      SumWithout(a, n);
      SumWithout(b, i);
      assert a[..n] + a[n + 1..] == a[..n];
    }
  }

  lemma SumWithout(z: seq<Entry>, i: nat)
    requires i < |z|
    ensures TokenSum(z) == TokenSum(z[..i] + z[i + 1..]) + TokenSum([z[i]])
  {
    hide TokenSum;
    var before, after := z[..i], z[i + 1..];
    assert z == before + ([z[i]] + after);
    SumConcat(before, after);
    SumConcat(before, [z[i]] + after);
    SumConcat([z[i]], after);
  }

  /** Pruning a sorted set below one of its own scores keeps only what follows that entry... */
  lemma {:induction false} AboveOwnScore(z: seq<Entry>, k: nat, cutoff: int)
    requires ScoreSorted(z) && k < |z| && z[k].score <= cutoff
    ensures TokenSum(Above(z, cutoff)) <= TokenSum(z[k + 1..])
    ensures |Above(z, cutoff)| <= |z| - k - 1
  {
    if k == 0 {
      SumSplits(z[1..], cutoff);
      assert z[k + 1..] == z[1..];
    } else {
      AboveOwnScore(z[1..], k - 1, cutoff);
      assert z[1..][k - 1 + 1..] == z[k + 1..];
    }
  }

  lemma AboveGrows(z: seq<Entry>, cutoff: int)
    requires z != []
    ensures TokenSum(Above(z, cutoff)) >= TokenSum(Above(z[1..], cutoff))
    ensures |Above(z, cutoff)| >= |Above(z[1..], cutoff)|
  {
  }

  /** ... and pruning it earlier keeps that entry and everything after it. */
  lemma {:induction false} AboveEarlier(z: seq<Entry>, k: nat, cutoff: int)
    requires ScoreSorted(z) && k < |z| && z[k].score > cutoff
    ensures TokenSum(Above(z, cutoff)) >= TokenSum(z[k..])
    ensures |Above(z, cutoff)| >= |z| - k
  {
    hide TokenSum, Above;
    if k == 0 {
      AllAbove(z, cutoff);
      assert z[0..] == z;
    } else {
      AboveEarlier(z[1..], k - 1, cutoff);
      AboveGrows(z, cutoff);
      assert z[1..][k - 1..] == z[k..];
    }
  }

  lemma {:induction false} AllAbove(z: seq<Entry>, cutoff: int)
    requires forall i :: 0 <= i < |z| ==> z[i].score > cutoff
    ensures Above(z, cutoff) == z
  {
    if z != [] {
      AllAbove(z[1..], cutoff);
    }
  }
}
