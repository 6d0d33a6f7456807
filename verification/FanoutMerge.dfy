/**
  Merging the child stores of any surviving batches of a fan-out, in any order, is concatenating
  them and sorting by member id.
*/
module FanoutMerge {
  import opened ChunkGrid
  import opened ChunkMerge
  import opened ChunkMergeLimits
  import opened Fanout

  /** Shapes: the same dimensions as the destination, and whole chunk files. */
  predicate Shaped<T>(g: Grid, c: Child<T>) {
    && Valid(g) && Valid(c.grid) && c.grid.axis == g.axis && |c.grid.shape| == |g.shape|
    && forall key :: key in c.files ==> |key| == |g.shape|
  }

  /** Children that are linked have the destination's chunk size in every dimension, not only along the ensemble. */
  predicate SharedGrid<T>(g: Grid, children: seq<Child<T>>) {
    forall j :: 0 <= j < |children| && Shaped(g, children[j]) && Links(g, children[j]) ==> children[j].grid == g
  }

  /** The children are the batches `of`, each one at most once. */
  predicate FanoutChildren<T>(g: Grid, children: seq<Child<T>>, of: seq<nat>, n: nat, size: nat) {
    && size > 0 && |of| == |children|
    && (forall i, j :: 0 <= i < j < |of| ==> of[i] != of[j])
    && (forall j :: 0 <= j < |of| ==>
          && of[j] * size < n
          && children[j].ids == BatchMemberIds(of[j], n, size)
          && Shaped(g, children[j]))
  }

  /** `sorted` is the ensemble coordinate of the concatenated children, sorted. */
  ghost predicate SortedMembers<T>(sorted: seq<int>, children: seq<Child<T>>) {
    && Increasing(sorted)
    && (forall x :: x in sorted ==> exists j :: 0 <= j < |children| && x in children[j].ids)
    && (forall j, x :: 0 <= j < |children| && x in children[j].ids ==> x in sorted)
  }

  /** The batch numbers in increasing order. */
  lemma {:induction false} SortBatches(of: set<nat>) returns (ks: seq<nat>)
    ensures forall i, j :: 0 <= i < j < |ks| ==> ks[i] < ks[j]
    ensures forall k :: k in ks <==> k in of
    decreases of
  {
    if of == {} {
      ks := [];
    } else {
      var top := Greatest(of);
      var front := SortBatches(of - {top});
      ks := front + [top];
      forall i, j | 0 <= i < j < |ks| ensures ks[i] < ks[j] {
        assert ks[i] in front;
      }
    }
  }

  lemma {:induction false} Greatest(s: set<nat>) returns (top: nat)
    requires s != {}
    ensures top in s && forall k :: k in s ==> k <= top
    decreases s
  {
    top :| top in s;
    if s != {top} {
      var rest := Greatest(s - {top});
      assert s == (s - {top}) + {top};
      top := if rest > top then rest else top;
    }
  }

  /** `ks` lists the batches of the children in increasing order. */
  ghost predicate Ordered(ks: seq<nat>, of: seq<nat>, n: nat, size: nat) {
    Survivors(ks, n, size) && forall k :: k in ks <==> k in of
  }

  lemma MemberIsFlattened<T>(g: Grid, children: seq<Child<T>>, of: seq<nat>, ks: seq<nat>, n: nat, size: nat, j: nat, x: int)
    requires FanoutChildren(g, children, of, n, size) && Ordered(ks, of, n, size)
    requires j < |children| && x in children[j].ids
    ensures x in Flatten(ks, n, size)
  {
    assert of[j] in ks;
    var i :| 0 <= i < |ks| && ks[i] == of[j];
    BatchIsFlattened(ks, n, size, i, x);
  }

  lemma FlattenedIsMember<T>(g: Grid, children: seq<Child<T>>, of: seq<nat>, ks: seq<nat>, n: nat, size: nat, x: int) returns (j: nat)
    requires FanoutChildren(g, children, of, n, size) && Ordered(ks, of, n, size)
    requires x in Flatten(ks, n, size)
    ensures j < |children| && x in children[j].ids
  {
    var i := FlattenMember(ks, n, size, x);
    assert ks[i] in ks;
    j :| 0 <= j < |of| && of[j] == ks[i];
  }

  /** The sorted coordinate is the surviving batches one after the other. */
  lemma SortedIsFlatten<T>(sorted: seq<int>, g: Grid, children: seq<Child<T>>, of: seq<nat>, ks: seq<nat>, n: nat, size: nat)
    requires FanoutChildren(g, children, of, n, size) && SortedMembers(sorted, children)
    requires Ordered(ks, of, n, size)
    ensures sorted == Flatten(ks, n, size)
  {
    FlattenIncreasing(ks, n, size);
    forall x | x in sorted ensures x in Flatten(ks, n, size) {
      var j :| 0 <= j < |children| && x in children[j].ids;
      MemberIsFlattened(g, children, of, ks, n, size, j, x);
    }
    forall x | x in Flatten(ks, n, size) ensures x in sorted {
      var j := FlattenedIsMember(g, children, of, ks, n, size, x);
    }
    IncreasingUnique(sorted, Flatten(ks, n, size));
  }

  lemma MemberRank(sorted: seq<int>, ks: seq<nat>, n: nat, size: nat, i: nat, l: nat, start: nat)
    requires Survivors(ks, n, size) && i < |ks| && l < |BatchMemberIds(ks[i], n, size)| && start == i * size
    requires Increasing(sorted) && sorted == Flatten(ks, n, size)
    ensures BatchMemberIds(ks[i], n, size)[l] in RankOf(sorted)
    ensures RankOf(sorted)[BatchMemberIds(ks[i], n, size)[l]] == start + l
  {
    FlattenAt(ks, n, size, i, l);
    assert sorted[start + l] == BatchMemberIds(ks[i], n, size)[l];
  }

  lemma BatchIsConsecutive<T>(c: Child<T>, sorted: seq<int>, ks: seq<nat>, n: nat, size: nat, i: nat, start: nat)
    requires Survivors(ks, n, size) && i < |ks| && start == i * size && c.ids == BatchMemberIds(ks[i], n, size)
    requires Increasing(sorted) && sorted == Flatten(ks, n, size)
    ensures Consecutive(c, RankOf(sorted), start)
  {
    forall l | 0 <= l < |c.ids| ensures c.ids[l] in RankOf(sorted) && RankOf(sorted)[c.ids[l]] == start + l {
      MemberRank(sorted, ks, n, size, i, l, start);
    }
  }

  lemma IndexIn(ks: seq<nat>, k: nat) returns (i: nat)
    requires k in ks
    ensures i < |ks| && ks[i] == k
  {
    i :| 0 <= i < |ks| && ks[i] == k;
  }

  function Product(i: nat, size: nat): nat {
    i * size
  }

  /** A child's members are consecutive in the sorted coordinate, from a multiple of the batch size. */
  lemma ChildStart<T>(sorted: seq<int>, g: Grid, children: seq<Child<T>>, of: seq<nat>, ks: seq<nat>, n: nat, size: nat, j: nat)
    returns (i: nat)
    requires FanoutChildren(g, children, of, n, size) && SortedMembers(sorted, children) && j < |children|
    requires Ordered(ks, of, n, size)
    ensures i < |ks| && ks[i] == of[j] && Consecutive(children[j], RankOf(sorted), i * size)
  {
    SortedIsFlatten(sorted, g, children, of, ks, n, size);
    i := IndexIn(ks, of[j]);
    var start := Product(i, size);
    BatchIsConsecutive(children[j], sorted, ks, n, size, i, start);
  }

  lemma StartAligned(i: nat, size: nat, w: nat)
    requires w > 0 && size % w == 0
    ensures (i * size) % w == 0
  {
    assert size == (size / w) * w;
    assert i * size == (i * (size / w)) * w;
    DivModUnique(i * (size / w), 0, w);
  }

  /** Different batches never share a destination chunk. */
  lemma BatchesApart(p: nat, m: nat, q: nat, k: nat, size: nat, w: nat)
    requires w > 0 && size % w == 0 && size > 0 && 0 < m <= size && 0 < k <= size && p != q
    ensures !SpansMeet(w, p * size, m, q * size, k)
    ensures p * size + m <= q * size || q * size + k <= p * size
  {
    StartAligned(p, size, w);
    StartAligned(q, size, w);
    MultipleIsFar(q - p, size);
    assert (q - p) * size == q * size - p * size;
    if p < q {
      BeforeBoundary(w, p * size + m - 1, q * size);
    } else {
      BeforeBoundary(w, q * size + k - 1, p * size);
    }
  }

  /** Child j is the batch number at[j] among the survivors. */
  ghost predicate PlacedAt<T>(at: seq<nat>, children: seq<Child<T>>, of: seq<nat>, ks: seq<nat>, rank: map<int, nat>, size: nat) {
    && |at| <= |children| && |of| == |children|
    && forall j :: 0 <= j < |at| ==>
         at[j] < |ks| && ks[at[j]] == of[j] && Consecutive(children[j], rank, at[j] * size)
  }

  lemma FindPlaces<T>(sorted: seq<int>, g: Grid, children: seq<Child<T>>, of: seq<nat>, ks: seq<nat>, n: nat, size: nat)
    returns (at: seq<nat>)
    requires FanoutChildren(g, children, of, n, size) && SortedMembers(sorted, children) && Ordered(ks, of, n, size)
    ensures |at| == |children| && PlacedAt(at, children, of, ks, RankOf(sorted), size)
  {
    at := [];
    while |at| < |children|
      invariant PlacedAt(at, children, of, ks, RankOf(sorted), size)
    {
      var i := ChildStart(sorted, g, children, of, ks, n, size, |at|);
      at := at + [i];
    }
  }

  /** Runs of members at distinct multiples of the batch size, none longer than a batch, keep apart. */
  lemma PlacesAreSafe<T>(g: Grid, children: seq<Child<T>>, of: seq<nat>, rank: map<int, nat>, ks: seq<nat>,
                         n: nat, size: nat, at: seq<nat>, starts: seq<nat>)
    requires FanoutChildren(g, children, of, n, size) && Valid(g) && size % Width(g) == 0
    requires |at| == |children| == |starts| && PlacedAt(at, children, of, ks, rank, size)
    requires forall j :: 0 <= j < |at| ==> starts[j] == at[j] * size
    ensures forall i, j :: 0 <= i < |children| && 0 <= j < |children| && i != j ==>
              && !SpansMeet(Width(g), starts[i], |children[i].ids|, starts[j], |children[j].ids|)
              && (starts[i] + |children[i].ids| <= starts[j] || starts[j] + |children[j].ids| <= starts[i])
    ensures forall j :: 0 <= j < |children| ==> starts[j] % Width(g) == 0
  {
    forall i, j | 0 <= i < |children| && 0 <= j < |children| && i != j
      ensures !SpansMeet(Width(g), starts[i], |children[i].ids|, starts[j], |children[j].ids|)
      ensures starts[i] + |children[i].ids| <= starts[j] || starts[j] + |children[j].ids| <= starts[i]
    {
      assert of[i] != of[j];
      BatchesApart(at[i], |children[i].ids|, at[j], |children[j].ids|, size, Width(g));
    }
    forall j | 0 <= j < |children| ensures starts[j] % Width(g) == 0 {
      StartAligned(at[j], size, Width(g));
    }
  }

  lemma OrderBatches<T>(g: Grid, children: seq<Child<T>>, of: seq<nat>, n: nat, size: nat) returns (ks: seq<nat>)
    requires FanoutChildren(g, children, of, n, size)
    ensures Ordered(ks, of, n, size)
  {
    ks := SortBatches(set k | k in of);
    forall i | 0 <= i < |ks| ensures ks[i] * size < n {
      assert ks[i] in ks;
      var j :| 0 <= j < |of| && of[j] == ks[i];
    }
  }

  /**
    For every subset of the batches, in every order, with a destination chunk size that divides the
    batch size: no destination chunk has members of two children, and the merge is safe exactly when
    the linked children have the destination's chunk size in the other dimensions too.
  */
  lemma FanoutIsSafe<T>(g: Grid, children: seq<Child<T>>, of: seq<nat>, sorted: seq<int>, n: nat, size: nat)
    returns (starts: seq<nat>)
    requires FanoutChildren(g, children, of, n, size) && SortedMembers(sorted, children)
    requires Valid(g) && size % Width(g) == 0
    ensures Placed(g, children, RankOf(sorted), starts)
    ensures SafeOrder(g, children, RankOf(sorted), starts) <==> SharedGrid(g, children)
    ensures forall i, j :: 0 <= i < |children| && 0 <= j < |children| && i != j ==>
              !SpansMeet(Width(g), starts[i], |children[i].ids|, starts[j], |children[j].ids|)
  {
    var ks := OrderBatches(g, children, of, n, size);
    var at := FindPlaces(sorted, g, children, of, ks, n, size);
    starts := seq(|at|, j requires 0 <= j < |at| => at[j] * size);
    PlacesAreSafe(g, children, of, RankOf(sorted), ks, n, size, at, starts);
    forall j | 0 <= j < |children|
      ensures Consecutive(children[j], RankOf(sorted), starts[j]) && Shaped(g, children[j]) && children[j].ids != []
    {
    }
  }

  /** For marked children of a fan-out the merge is right exactly when the linked ones share the destination's grid. */
  lemma FanoutMergeIsExact(trace: seq<Layout<Mark>>, g: Grid, children: seq<Child<Mark>>, of: seq<nat>, sorted: seq<int>,
                           n: nat, size: nat, starts: seq<nat>)
    requires FanoutChildren(g, children, of, n, size) && SortedMembers(sorted, children)
    requires Valid(g) && size % Width(g) == 0
    requires AllMarked(g, children, RankOf(sorted), starts) && IsMerge(trace, g, Blank, children, RankOf(sorted), starts)
    ensures (forall x :: 0 <= x < |children| ==> ReadsBack(trace[|children|], g, Blank, children[x], starts[x]))
            <==> SharedGrid(g, children)
  {
    var starts' := FanoutIsSafe(g, children, of, sorted, n, size);
    StartsAreUnique(g, children, RankOf(sorted), starts, starts');
    SafeOrderIsExact(trace, g, children, RankOf(sorted), starts);
  }

  /** A single child is the only batch of a fan-out of one member. */
  lemma OneBatch<T>(g: Grid, children: seq<Child<T>>, size: nat)
    requires size > 0 && |children| == 1 && children[0].ids == [0] && Shaped(g, children[0])
    ensures FanoutChildren(g, children, [0], 1, size) && SortedMembers([0], children)
  {
    assert BatchMemberIds(0, 1, size) == [0];
    assert 0 in children[0].ids;
  }

  lemma OneRank()
    ensures RankOf([0]) == map[0 := 0]
  {
    assert [0][0] == 0;
  }

  /** The only batch of a fan-out, stored with another chunk size in some other dimension, does not read back. */
  lemma MismatchedFanout(g: Grid, grid: Grid) returns (trace: seq<Layout<Mark>>)
    requires Valid(g) && Valid(grid) && grid.axis == g.axis && |grid.shape| == |g.shape|
    requires Width(grid) == Width(g) && grid != g
    ensures var children, size := [MarkedChild(0, [0], grid)], Width(g);
            && FanoutChildren(g, children, [0], 1, size) && SortedMembers([0], children) && !SharedGrid(g, children)
            && AllMarked(g, children, RankOf([0]), [0]) && IsMerge(trace, g, Blank, children, RankOf([0]), [0])
            && !ReadsBack(trace[1], g, Blank, children[0], 0)
  {
    var children := [MarkedChild(0, [0], grid)];
    trace := MismatchIsPossible(g, grid);
    OneRank();
    MismatchIsUnshared(g, children);
    OneBatch(g, children, Width(g));
  }

  lemma MismatchIsUnshared(g: Grid, children: seq<Child<Mark>>)
    requires |children| == 1 && Placed(g, children, map[0 := 0], [0])
    requires Links(g, children[0]) && children[0].grid != g
    ensures Shaped(g, children[0]) && !SharedGrid(g, children)
  {
  }

  lemma StartsAreUnique<T>(g: Grid, children: seq<Child<T>>, rank: map<int, nat>, starts: seq<nat>, starts': seq<nat>)
    requires Placed(g, children, rank, starts) && Placed(g, children, rank, starts')
    ensures starts == starts'
  {
    forall i | 0 <= i < |starts| ensures starts[i] == starts'[i] {
      assert rank[children[i].ids[0]] == starts[i] + 0;
      assert rank[children[i].ids[0]] == starts'[i] + 0;
    }
  }
}
