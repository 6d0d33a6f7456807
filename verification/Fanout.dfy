/**
  Splitting an ensemble into fan-out batches, and where the members of the surviving batches end up
  once they are sorted by member id.
*/
module Fanout {
  import opened ChunkGrid
  import opened ChunkMerge

  /** list(range(lo, hi)) */
  function Range(lo: int, hi: int): (r: seq<int>)
    requires lo <= hi
    ensures |r| == hi - lo
    ensures forall i :: 0 <= i < |r| ==> r[i] == lo + i
  {
    seq(hi - lo, i requires 0 <= i < hi - lo => lo + i)
  }

  function Min(x: int, y: int): int { if x <= y then x else y }

  /** How many batches an ensemble needs. */
  function BatchCount(n: nat, size: nat): nat
    requires size > 0
  {
    (n + size - 1) / size
  }

  lemma BatchInRange(k: nat, n: nat, size: nat)
    requires size > 0
    ensures k < BatchCount(n, size) <==> k * size < n
  {
    var m := BatchCount(n, size);
    assert n + size - 1 == m * size + (n + size - 1) % size;
    if k < m {
      MultipleIsFar(m - k, size);
      assert (m - k) * size == m * size - k * size;
    } else {
      MultipleIsFar(k - m + 1, size);
      assert (k - m + 1) * size == k * size - m * size + size;
    }
  }

  /** _batch_member_ids, for a batch of the ensemble. */
  function BatchMemberIds(k: nat, n: nat, size: nat): (ids: seq<int>)
    requires size > 0 && k * size < n
    ensures ids != [] && |ids| <= size
    ensures forall l :: 0 <= l < |ids| ==> ids[l] == k * size + l < n
    ensures (k + 1) * size <= n ==> |ids| == size
    ensures (k + 1) * size > n ==> k * size + |ids| == n
  {
    Range(k * size, Min(k * size + size, n))
  }

  /** _build_fanout_batches: the batches are exactly the ones numbered below the batch count. */
  method BuildFanoutBatches(n: nat, size: nat) returns (batches: seq<seq<int>>)
    requires size > 0
    ensures |batches| == BatchCount(n, size)
    ensures forall k :: 0 <= k < |batches| ==> k * size < n && batches[k] == BatchMemberIds(k, n, size)
  {
    batches := [];
    var offset := 0;
    while offset < n
      invariant offset == |batches| * size
      invariant forall k :: 0 <= k < |batches| ==> k * size < n && batches[k] == BatchMemberIds(k, n, size)
      decreases n - offset
    {
      batches := batches + [Range(offset, Min(offset + size, n))];
      assert (|batches| - 1) * size + size == |batches| * size;
      offset := offset + size;
    }
    BatchInRange(|batches|, n, size);
    if |batches| > 0 {
      BatchInRange(|batches| - 1, n, size);
    }
  }

  /** Every member is in a batch. */
  lemma BatchOf(n: nat, size: nat, m: nat) returns (k: nat)
    requires size > 0 && m < n
    ensures k < BatchCount(n, size) && k * size < n && m in BatchMemberIds(k, n, size)
  {
    k := m / size;
    assert m == k * size + m % size;
    BatchInRange(k, n, size);
    assert k * size + size == (k + 1) * size;
    assert BatchMemberIds(k, n, size)[m % size] == m;
  }

  /** Every member is in only one batch. */
  lemma BatchIsUnique(n: nat, size: nat, m: int, j: nat, k: nat)
    requires size > 0 && j * size < n && k * size < n
    requires m in BatchMemberIds(j, n, size) && m in BatchMemberIds(k, n, size)
    ensures j == k
  {
    var p :| 0 <= p < |BatchMemberIds(j, n, size)| && BatchMemberIds(j, n, size)[p] == m;
    var q :| 0 <= q < |BatchMemberIds(k, n, size)| && BatchMemberIds(k, n, size)[q] == m;
    MultipleIsFar(j - k, size);
    assert (j - k) * size == j * size - k * size;
  }

  lemma BatchBounds(k: nat, n: nat, size: nat, x: int)
    requires size > 0 && k * size < n && x in BatchMemberIds(k, n, size)
    ensures 0 <= x < n
  {
    var ids := BatchMemberIds(k, n, size);
    var l :| 0 <= l < |ids| && ids[l] == x;
    assert k * size >= 0;
  }

  // ---------------------------------------------------------------------------------------
  // Sorting the members of the surviving batches

  predicate Increasing(xs: seq<int>) {
    forall i, j :: 0 <= i < j < |xs| ==> xs[i] < xs[j]
  }

  /** The batch numbers ks in increasing order, all of them batches of the ensemble. */
  predicate Survivors(ks: seq<nat>, n: nat, size: nat) {
    && size > 0
    && (forall i, j :: 0 <= i < j < |ks| ==> ks[i] < ks[j])
    && (forall i :: 0 <= i < |ks| ==> ks[i] * size < n)
  }

  /** The batches one after the other. */
  function Flatten(ks: seq<nat>, n: nat, size: nat): seq<int>
    requires Survivors(ks, n, size)
  {
    if ks == [] then []
    else Flatten(ks[..|ks| - 1], n, size) + BatchMemberIds(ks[|ks| - 1], n, size)
  }

  /** A batch followed by another one is full. */
  lemma FullUnlessLast(ks: seq<nat>, n: nat, size: nat, i: nat)
    requires Survivors(ks, n, size) && i + 1 < |ks|
    ensures |BatchMemberIds(ks[i], n, size)| == size
  {
    assert ks[i] + 1 <= ks[i + 1];
    MultipleIsFar(ks[i + 1] - ks[i], size);
    assert (ks[i + 1] - ks[i]) * size == ks[i + 1] * size - ks[i] * size;
    assert (ks[i] + 1) * size == ks[i] * size + size;
  }

  lemma SurvivorsPrefix(ks: seq<nat>, n: nat, size: nat, m: nat)
    requires Survivors(ks, n, size) && m <= |ks|
    ensures Survivors(ks[..m], n, size)
  {
  }

  lemma FlattenSnoc(ks: seq<nat>, n: nat, size: nat, m: nat)
    requires Survivors(ks, n, size) && 0 < m <= |ks| && Survivors(ks[..m], n, size) && Survivors(ks[..m - 1], n, size)
    ensures Flatten(ks[..m], n, size) == Flatten(ks[..m - 1], n, size) + BatchMemberIds(ks[m - 1], n, size)
  {
    assert ks[..m][..m - 1] == ks[..m - 1];
  }

  lemma NextMultiple(m: nat, size: nat)
    requires m > 0
    ensures m * size == (m - 1) * size + size
  {
  }

  /** All batches but the last are full. */
  lemma {:induction false} FlattenLength(ks: seq<nat>, n: nat, size: nat, m: nat)
    requires Survivors(ks, n, size) && m < |ks|
    ensures Survivors(ks[..m], n, size) && |Flatten(ks[..m], n, size)| == m * size
    decreases m
  {
    SurvivorsPrefix(ks, n, size, m);
    if m > 0 {
      FlattenLength(ks, n, size, m - 1);
      FullUnlessLast(ks, n, size, m - 1);
      FlattenSnoc(ks, n, size, m);
      NextMultiple(m, size);
    }
  }

  /** Batch number i of the survivors starts at i * size. */
  lemma {:induction false} FlattenAt(ks: seq<nat>, n: nat, size: nat, i: nat, l: nat)
    requires Survivors(ks, n, size) && i < |ks| && l < |BatchMemberIds(ks[i], n, size)|
    ensures i * size + l < |Flatten(ks, n, size)| && Flatten(ks, n, size)[i * size + l] == ks[i] * size + l
    decreases |ks|
  {
    var m := |ks| - 1;
    FlattenLength(ks, n, size, m);
    if i < m {
      FlattenAt(ks[..m], n, size, i, l);
    }
  }

  /** A member of the concatenation is a member of one of the batches. */
  lemma {:induction false} FlattenMember(ks: seq<nat>, n: nat, size: nat, x: int) returns (i: nat)
    requires Survivors(ks, n, size) && x in Flatten(ks, n, size)
    ensures i < |ks| && x in BatchMemberIds(ks[i], n, size)
    decreases |ks|
  {
    var m := |ks| - 1;
    if x in Flatten(ks[..m], n, size) {
      i := FlattenMember(ks[..m], n, size, x);
    } else {
      i := m;
    }
  }

  /** A member of one of the batches is in the concatenation. */
  lemma BatchIsFlattened(ks: seq<nat>, n: nat, size: nat, i: nat, x: int)
    requires Survivors(ks, n, size) && i < |ks| && x in BatchMemberIds(ks[i], n, size)
    ensures x in Flatten(ks, n, size)
  {
    var l :| 0 <= l < |BatchMemberIds(ks[i], n, size)| && BatchMemberIds(ks[i], n, size)[l] == x;
    FlattenAt(ks, n, size, i, l);
  }

  lemma IncreasingAppend(xs: seq<int>, ys: seq<int>)
    requires Increasing(xs) && Increasing(ys)
    requires forall x, y :: x in xs && y in ys ==> x < y
    ensures Increasing(xs + ys)
  {
    var zs := xs + ys;
    forall i, j | 0 <= i < j < |zs| ensures zs[i] < zs[j] {
      if i < |xs| <= j {
        assert xs[i] in xs && ys[j - |xs|] in ys;
      }
    }
  }

  lemma {:induction false} FlattenIncreasing(ks: seq<nat>, n: nat, size: nat)
    requires Survivors(ks, n, size)
    ensures Increasing(Flatten(ks, n, size))
    decreases |ks|
  {
    if ks != [] {
      var m := |ks| - 1;
      var front, last := Flatten(ks[..m], n, size), BatchMemberIds(ks[m], n, size);
      FlattenIncreasing(ks[..m], n, size);
      forall x, y | x in front && y in last ensures x < y {
        var i := FlattenMember(ks[..m], n, size, x);
        BatchBelow(ks[i], ks[m], n, size, x);
      }
      IncreasingAppend(front, last);
    }
  }

  lemma BatchBelow(j: nat, k: nat, n: nat, size: nat, x: int)
    requires size > 0 && j < k && k * size < n && j * size < n && x in BatchMemberIds(j, n, size)
    ensures x < k * size
  {
    MultipleIsFar(k - j, size);
    assert (k - j) * size == k * size - j * size;
  }

  lemma {:induction false} IncreasingUnique(xs: seq<int>, ys: seq<int>)
    requires Increasing(xs) && Increasing(ys) && forall x :: x in xs <==> x in ys
    ensures xs == ys
    decreases |xs|
  {
    if xs == [] {
      assert forall i :: 0 <= i < |ys| ==> ys[i] in ys;
    } else {
      assert xs[0] in xs && ys != [];
      assert ys[0] in ys;
      assert xs[0] == ys[0];
      forall x ensures x in xs[1..] <==> x in ys[1..] {
        assert x in xs <==> x == xs[0] || x in xs[1..];
        assert x in ys <==> x == ys[0] || x in ys[1..];
      }
      IncreasingUnique(xs[1..], ys[1..]);
    }
  }

  /** member_index_by_id: the position of every id in the sorted ensemble coordinate. */
  function RankOf(sorted: seq<int>): (rank: map<int, nat>)
    requires Increasing(sorted)
    ensures forall i :: 0 <= i < |sorted| ==> sorted[i] in rank && rank[sorted[i]] == i
  {
    map i: nat | i < |sorted| :: sorted[i] := i
  }
}
