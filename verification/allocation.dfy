/** The per-type accumulation of `asset_allocation_report` (views.py): every investment of a
    portfolio is added to the bucket of its investment type, buckets kept in the order in
    which their type first appears (a Python dict keeps insertion order). Money is cents. */
module Allocation {

  /** What the report reads of an investment: its type name, current value and total cost. */
  datatype Holding = Holding(kind: string, currentValue: int, totalCost: int)

  /** `Investment.gain_loss`: current value less total cost. */
  function GainLoss(h: Holding): (g: int)
    ensures h.totalCost + g == h.currentValue
  {
    h.currentValue - h.totalCost
  }

  function One(h: Holding): int { 1 }
  function Value(h: Holding): int { h.currentValue }
  function Cost(h: Holding): int { h.totalCost }

  datatype Bucket = Bucket(count: nat, totalValue: int, totalCost: int, gainLoss: int, members: seq<Holding>)

  /** The bucket `defaultdict` creates for a type seen for the first time. */
  const EmptyBucket := Bucket(0, 0, 0, 0, [])

  /** One investment added to its type's bucket. */
  function Add(b: Bucket, h: Holding): Bucket {
    Bucket(b.count + 1, b.totalValue + h.currentValue, b.totalCost + h.totalCost, b.gainLoss + GainLoss(h), b.members + [h])
  }

  /** The investments of one type, in order. */
  function Of(hs: seq<Holding>, kind: string): (r: seq<Holding>)
    ensures |r| <= |hs|
  {
    if hs == [] then []
    else
      var last := hs[|hs| - 1];
      Of(hs[..|hs| - 1], kind) + (if last.kind == kind then [last] else [])
  }

  /** The sum of f over the investments. */
  function SumBy(hs: seq<Holding>, f: Holding -> int): int {
    if hs == [] then 0 else SumBy(hs[..|hs| - 1], f) + f(hs[|hs| - 1])
  }

  /** The investment types in order of first appearance: the keys of the allocation, in order. */
  function Kinds(hs: seq<Holding>): (ks: seq<string>)
    ensures |ks| <= |hs|
  {
    if hs == [] then []
    else
      var last := hs[|hs| - 1];
      var ks := Kinds(hs[..|hs| - 1]);
      ks + (if last.kind in ks then [] else [last.kind])
  }

  /** The allocation after adding every investment, in order, to its type's bucket. */
  function Grouped(hs: seq<Holding>): map<string, Bucket>
  {
    if hs == [] then map[]
    else
      var m := Grouped(hs[..|hs| - 1]);
      var last := hs[|hs| - 1];
      var b := if last.kind in m then m[last.kind] else EmptyBucket;
      m[last.kind := Add(b, last)]
  }

  /** A type is a key of the allocation exactly when it is in the key order. */
  lemma {:induction false} KeysAreKinds(hs: seq<Holding>)
    ensures forall k :: k in Grouped(hs) <==> k in Kinds(hs)
  {
    if hs != [] {
      KeysAreKinds(hs[..|hs| - 1]);
    }
  }

  /** `asset_allocation_report`'s loop: `order` is the allocation's key order. */
  method Allocate(investments: seq<Holding>) returns (order: seq<string>, allocation: map<string, Bucket>)
    ensures allocation == Grouped(investments)
    ensures order == Kinds(investments)
  {
    order := [];
    allocation := map[];
    var i := 0;
    while i < |investments|
      invariant 0 <= i <= |investments|
      invariant allocation == Grouped(investments[..i])
      invariant order == Kinds(investments[..i])
    {
      var investment := investments[i];
      assert investments[..i + 1][..i] == investments[..i];
      KeysAreKinds(investments[..i]);
      var kind := investment.kind;
      if kind !in allocation {
        allocation := allocation[kind := EmptyBucket];
        order := order + [kind];
      }
      var bucket := allocation[kind];
      allocation := allocation[kind := bucket.(count := bucket.count + 1)];
      bucket := allocation[kind];
      allocation := allocation[kind := bucket.(totalValue := bucket.totalValue + investment.currentValue)];
      bucket := allocation[kind];
      allocation := allocation[kind := bucket.(totalCost := bucket.totalCost + investment.totalCost)];
      bucket := allocation[kind];
      allocation := allocation[kind := bucket.(gainLoss := bucket.gainLoss + GainLoss(investment))];
      bucket := allocation[kind];
      allocation := allocation[kind := bucket.(members := bucket.members + [investment])];
      i := i + 1;
    }
    assert investments[..i] == investments;
  }

  // ---------------------------------------------------------------------------------
  // A reference definition of a bucket, and the totals.

  /** What a bucket holds for the given members: their number, their sums, themselves. */
  function Summary(ms: seq<Holding>): Bucket {
    Bucket(|ms|, SumBy(ms, Value), SumBy(ms, Cost), SumBy(ms, GainLoss), ms)
  }

  lemma {:induction false} OfSnoc(hs: seq<Holding>, h: Holding, kind: string)
    ensures Of(hs + [h], kind) == Of(hs, kind) + (if h.kind == kind then [h] else [])
  {
    assert (hs + [h])[..|hs|] == hs;
  }

  lemma SummarySnoc(ms: seq<Holding>, h: Holding)
    ensures Summary(ms + [h]) == Add(Summary(ms), h)
  {
    assert (ms + [h])[..|ms|] == ms;
  }

  /** The bucket of a type (the empty bucket when the type has none) is the summary of exactly
      the investments of that type. */
  function BucketOf(m: map<string, Bucket>, kind: string): Bucket {
    if kind in m then m[kind] else EmptyBucket
  }

  lemma {:induction false} BucketIsSummary(hs: seq<Holding>, kind: string)
    ensures BucketOf(Grouped(hs), kind) == Summary(Of(hs, kind))
  {
    if hs == [] {
      assert Summary([]) == EmptyBucket;
    } else {
      var prefix, last := hs[..|hs| - 1], hs[|hs| - 1];
      BucketIsSummary(prefix, kind);
      if last.kind == kind {
        SummarySnoc(Of(prefix, kind), last);
      } else {
        assert Of(hs, kind) == Of(prefix, kind) + [];
        assert Of(prefix, kind) + [] == Of(prefix, kind);
      }
    }
  }

  /** The investments of one type are exactly those of hs with that type. */
  lemma {:induction false} OfMembers(hs: seq<Holding>, kind: string)
    ensures forall h :: h in Of(hs, kind) <==> h in hs && h.kind == kind
  {
    if hs != [] {
      var prefix, last := hs[..|hs| - 1], hs[|hs| - 1];
      OfMembers(prefix, kind);
      assert hs == prefix + [last];
    }
  }

  /** The key order names every type once, and every investment's type. */
  lemma {:induction false} KindsDistinctAndCover(hs: seq<Holding>)
    ensures forall i, j :: 0 <= i < j < |Kinds(hs)| ==> Kinds(hs)[i] != Kinds(hs)[j]
    ensures forall h :: h in hs ==> h.kind in Kinds(hs)
  {
    if hs != [] {
      var prefix, last := hs[..|hs| - 1], hs[|hs| - 1];
      KindsDistinctAndCover(prefix);
      assert hs == prefix + [last];
    }
  }

  /** In every bucket the gain/loss is the total value less the total cost, and the count is
      the number of members. */
  lemma BucketGainLoss(hs: seq<Holding>, kind: string)
    requires kind in Grouped(hs)
    ensures var b := Grouped(hs)[kind];
      b.gainLoss == b.totalValue - b.totalCost && b.count == |b.members|
  {
    BucketIsSummary(hs, kind);
    SumsOfGainLoss(Of(hs, kind));
  }

  lemma {:induction false} SumsOfGainLoss(ms: seq<Holding>)
    ensures SumBy(ms, GainLoss) == SumBy(ms, Value) - SumBy(ms, Cost)
  {
    if ms != [] {
      SumsOfGainLoss(ms[..|ms| - 1]);
    }
  }

  lemma {:induction false} SumOfOnes(ms: seq<Holding>)
    ensures SumBy(ms, One) == |ms|
  {
    if ms != [] {
      SumOfOnes(ms[..|ms| - 1]);
    }
  }

  /** Σ over the types ks of the sum of f over that type's investments. */
  function SumOver(hs: seq<Holding>, ks: seq<string>, f: Holding -> int): int {
    if ks == [] then 0 else SumOver(hs, ks[..|ks| - 1], f) + SumBy(Of(hs, ks[|ks| - 1]), f)
  }

  lemma {:induction false} SumOverSnoc(hs: seq<Holding>, h: Holding, ks: seq<string>, f: Holding -> int)
    requires forall i, j :: 0 <= i < j < |ks| ==> ks[i] != ks[j]
    ensures SumOver(hs + [h], ks, f) == SumOver(hs, ks, f) + (if h.kind in ks then f(h) else 0)
  {
    if ks != [] {
      var init, k := ks[..|ks| - 1], ks[|ks| - 1];
      SumOverSnoc(hs, h, init, f);
      OfSnoc(hs, h, k);
      var ms := Of(hs, k);
      if h.kind == k {
        assert (ms + [h])[..|ms|] == ms;
        assert SumBy(Of(hs + [h], k), f) == SumBy(ms, f) + f(h);
        assert k !in init;
      } else {
        assert ms + [] == ms;
        assert Of(hs + [h], k) == ms;
        assert h.kind in ks <==> h.kind in init by {
          assert ks == init + [k];
        }
      }
    }
  }

  /** Splitting the investments by type and summing type by type gives the overall sum, when
      the types are distinct and cover every investment. */
  lemma {:induction false} PartitionSum(hs: seq<Holding>, ks: seq<string>, f: Holding -> int)
    requires forall i, j :: 0 <= i < j < |ks| ==> ks[i] != ks[j]
    requires forall h :: h in hs ==> h.kind in ks
    ensures SumOver(hs, ks, f) == SumBy(hs, f)
  {
    if hs == [] {
      EmptyOver(ks, f);
    } else {
      var prefix, last := hs[..|hs| - 1], hs[|hs| - 1];
      assert hs == prefix + [last];
      PartitionSum(prefix, ks, f);
      SumOverSnoc(prefix, last, ks, f);
    }
  }

  lemma {:induction false} EmptyOver(ks: seq<string>, f: Holding -> int)
    ensures SumOver([], ks, f) == 0
  {
    if ks != [] {
      EmptyOver(ks[..|ks| - 1], f);
    }
  }

  /** The buckets' counts and values, added over the allocation's keys in order. */
  function CountTotal(m: map<string, Bucket>, ks: seq<string>): int {
    if ks == [] then 0
    else CountTotal(m, ks[..|ks| - 1]) + (if ks[|ks| - 1] in m then m[ks[|ks| - 1]].count else 0)
  }

  function ValueTotal(m: map<string, Bucket>, ks: seq<string>): int {
    if ks == [] then 0
    else ValueTotal(m, ks[..|ks| - 1]) + (if ks[|ks| - 1] in m then m[ks[|ks| - 1]].totalValue else 0)
  }

  lemma {:induction false} TotalsOverKinds(hs: seq<Holding>, ks: seq<string>)
    requires forall k :: k in ks ==> k in Grouped(hs)
    ensures CountTotal(Grouped(hs), ks) == SumOver(hs, ks, One)
    ensures ValueTotal(Grouped(hs), ks) == SumOver(hs, ks, Value)
  {
    if ks != [] {
      var k := ks[|ks| - 1];
      TotalsOverKinds(hs, ks[..|ks| - 1]);
      BucketIsSummary(hs, k);
      SumOfOnes(Of(hs, k));
    }
  }

  /** The per-type counts add up to the number of investments, and the per-type values to the
      portfolio's total value (the sum of every investment's current value). */
  lemma AllocationTotals(hs: seq<Holding>)
    ensures CountTotal(Grouped(hs), Kinds(hs)) == |hs|
    ensures ValueTotal(Grouped(hs), Kinds(hs)) == SumBy(hs, Value)
  {
    var ks := Kinds(hs);
    KeysAreKinds(hs);
    TotalsOverKinds(hs, ks);
    KindsDistinctAndCover(hs);
    PartitionSum(hs, ks, One);
    PartitionSum(hs, ks, Value);
    SumOfOnes(hs);
  }
}
