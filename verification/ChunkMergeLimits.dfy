/**
  `ChunkMerge.SafeOrder` cannot be weakened: whenever it fails, merging children whose chunks hold
  nothing twice loses an element. The lost element belongs to a linked child with another chunk size
  in some dimension, to a linked child that does not begin on a chunk boundary, or to a child one of
  whose chunks a later linked child replaced.
*/
module ChunkMergeLimits {
  import opened ChunkGrid
  import opened ChunkMerge

  /** A stored value that says which child, chunk and offset it was stored at. */
  datatype Mark = Blank | Mark(child: nat, key: Key, off: seq<nat>)

  // ---------------------------------------------------------------------------------------
  // Marked children

  /** Every key of ks, extended by each number below n. */
  function Extend(ks: set<Key>, n: nat): set<Key> {
    if n == 0 then {} else Extend(ks, n - 1) + set k | k in ks :: k + [n - 1]
  }

  /** The keys below the bounds, dimension by dimension. */
  function KeysBelow(bounds: seq<nat>): set<Key> {
    if |bounds| == 0 then {[]} else Extend(KeysBelow(bounds[..|bounds| - 1]), bounds[|bounds| - 1])
  }

  predicate Below(key: Key, bounds: seq<nat>) {
    |key| == |bounds| && forall d :: 0 <= d < |key| ==> key[d] < bounds[d]
  }

  lemma {:induction false} ExtendMember(ks: set<Key>, n: nat, key: Key)
    ensures key in Extend(ks, n) <==> |key| > 0 && key[..|key| - 1] in ks && key[|key| - 1] < n
  {
    if n > 0 {
      ExtendMember(ks, n - 1, key);
      var top := set k | k in ks :: k + [n - 1];
      if |key| > 0 && key[..|key| - 1] in ks && key[|key| - 1] == n - 1 {
        assert key == key[..|key| - 1] + [n - 1];
      }
      if key in top {
        var k :| k in ks && key == k + [n - 1];
        assert key[..|key| - 1] == k;
      }
    }
  }

  lemma {:induction false} KeysBelowMember(bounds: seq<nat>, key: Key)
    ensures key in KeysBelow(bounds) <==> Below(key, bounds)
  {
    if |bounds| > 0 {
      var b := bounds[..|bounds| - 1];
      ExtendMember(KeysBelow(b), bounds[|bounds| - 1], key);
      if |key| > 0 {
        KeysBelowMember(b, key[..|key| - 1]);
        BelowSplit(key, bounds);
      }
    }
  }

  lemma BelowSplit(key: Key, bounds: seq<nat>)
    requires |key| > 0 && |bounds| > 0
    ensures Below(key, bounds) <==>
            Below(key[..|key| - 1], bounds[..|bounds| - 1]) && key[|key| - 1] < bounds[|bounds| - 1]
  {
    if Below(key[..|key| - 1], bounds[..|bounds| - 1]) && key[|key| - 1] < bounds[|bounds| - 1] {
      forall d | 0 <= d < |key| ensures key[d] < bounds[d] {
        if d < |key| - 1 { assert key[..|key| - 1][d] < bounds[..|bounds| - 1][d]; }
      }
    }
  }

  /** The chunks of a child: two in every dimension but the ensemble, and enough for its members there. */
  function Bounds(axis: nat, rank: nat, members: nat): (bounds: seq<nat>)
    ensures |bounds| == rank
  {
    seq(rank, d => if d == axis then members else 2)
  }

  function MarkedChild(x: nat, ids: seq<int>, grid: Grid): Child<Mark> {
    Child(ids, grid, map key | key in KeysBelow(Bounds(grid.axis, |grid.shape|, |ids|)) :: (off: seq<nat>) => Mark(x, key, off))
  }

  lemma MarkedFile(x: nat, ids: seq<int>, grid: Grid, key: Key)
    requires Valid(grid) && |key| == |grid.shape| && key[grid.axis] < |ids|
    requires forall d :: 0 <= d < |key| && d != grid.axis ==> key[d] < 2
    ensures key in MarkedChild(x, ids, grid).files
  {
    KeysBelowMember(Bounds(grid.axis, |grid.shape|, |ids|), key);
  }

  lemma MarkedFileShape(x: nat, ids: seq<int>, grid: Grid, key: Key)
    requires key in MarkedChild(x, ids, grid).files
    ensures |key| == |grid.shape|
  {
    KeysBelowMember(Bounds(grid.axis, |grid.shape|, |ids|), key);
  }

  /** The mark of an element of child x. */
  function MarkOf(x: nat, grid: Grid, idx: Index): Mark
    requires Valid(grid) && |idx| == |grid.shape|
  {
    Mark(x, KeyOf(grid, idx), OffsetOf(grid, idx))
  }

  /** The element at n in dimension d and at 0 in every other. */
  function Spot(rank: nat, d: nat, n: nat): (idx: Index)
    requires d < rank
    ensures |idx| == rank && idx[d] == n && forall e :: 0 <= e < rank && e != d ==> idx[e] == 0
  {
    seq(rank, e => if e == d then n else 0)
  }

  /** An element of the first member, in the first or second chunk of one other dimension, has its mark. */
  lemma SpotIsMarked(x: nat, ids: seq<int>, grid: Grid, d: nat, n: nat)
    requires Valid(grid) && ids != [] && d < |grid.shape| && (d == grid.axis ==> n == 0) && n <= grid.shape[d]
    ensures ChildAt(MarkedChild(x, ids, grid), Blank, Spot(|grid.shape|, d, n)) == MarkOf(x, grid, Spot(|grid.shape|, d, n))
  {
    var key := KeyOf(grid, Spot(|grid.shape|, d, n));
    assert n / grid.shape[d] <= 1 by { SmallQuotient(n, grid.shape[d]); }
    MarkedFile(x, ids, grid, key);
  }

  lemma SmallQuotient(n: nat, w: nat)
    requires w > 0 && n <= w
    ensures n / w == if n == w then 1 else 0
    ensures n % w == if n == w then 0 else n
  {
    DivModUnique(if n == w then 1 else 0, if n == w then 0 else n, w);
  }

  // ---------------------------------------------------------------------------------------
  // One step

  function Value(layout: Layout<Mark>, g: Grid, at: Index): Mark
    requires Valid(g) && |at| == |g.shape|
  {
    ReadAt(layout, g, Blank, at)
  }

  /** What a linked child puts at an element. */
  lemma LinkValue(before: Layout<Mark>, after: Layout<Mark>, g: Grid, x: nat, ids: seq<int>, grid: Grid, start: nat, at: Index)
    requires MergeStep(before, after, g, Blank, MarkedChild(x, ids, grid), start) && Width(grid) == Width(g)
    requires |at| == |g.shape|
    ensures var key := KeyOf(g, at);
            Value(after, g, at) ==
              if Covers(g, start, |ids|, key) && SourceKey(g, start, |ids|, key) in MarkedChild(x, ids, grid).files
              then Mark(x, SourceKey(g, start, |ids|, key), OffsetOf(g, at))
              else Value(before, g, at)
  {
  }

  /** A step leaves an element alone, blanks it, or gives it a mark of the merged child. */
  lemma StepValue(before: Layout<Mark>, after: Layout<Mark>, g: Grid, x: nat, ids: seq<int>, grid: Grid, start: nat, at: Index)
    requires MergeStep(before, after, g, Blank, MarkedChild(x, ids, grid), start) && |at| == |g.shape|
    ensures var v := Value(after, g, at);
            v == Value(before, g, at) || v.Blank? || v.child == x
  {
    if Width(grid) == Width(g) {
      LinkValue(before, after, g, x, ids, grid, start, at);
    } else {
      assert CopiedAt(before, after, g, Blank, MarkedChild(x, ids, grid), start, |ids|, at);
    }
  }

  // ---------------------------------------------------------------------------------------
  // Lost elements

  /** All children are marked. */
  ghost predicate AllMarked(g: Grid, children: seq<Child<Mark>>, rank: map<int, nat>, starts: seq<nat>) {
    && Placed(g, children, rank, starts)
    && forall x :: 0 <= x < |children| ==> children[x] == MarkedChild(x, children[x].ids, children[x].grid)
  }

  /** The destination of element idx of child x. */
  function Target(g: Grid, start: nat, idx: Index): (at: Index)
    requires Valid(g) && |idx| == |g.shape|
    ensures |at| == |g.shape|
  {
    Moved(idx, g.axis, start + idx[g.axis])
  }

  /** Merging another child does not bring a lost element back. */
  lemma StepKeepsLost(trace: seq<Layout<Mark>>, g: Grid, children: seq<Child<Mark>>, rank: map<int, nat>, starts: seq<nat>,
                      x: nat, mark: Mark, at: Index, k: nat)
    requires AllMarked(g, children, rank, starts) && k < |children| && k != x && |at| == |g.shape|
    requires IsMerge(trace, g, Blank, children, rank, starts)
    requires mark.Mark? && mark.child == x && Value(trace[k], g, at) != mark
    ensures Value(trace[k + 1], g, at) != mark
  {
    assert MergeStep(trace[k], trace[k + 1], g, Blank, children[k], starts[k]);
    StepValue(trace[k], trace[k + 1], g, k, children[k].ids, children[k].grid, starts[k], at);
  }

  /** An element of x that is missing after some children stays missing, as long as x is not merged. */
  lemma {:induction false} StaysLost(trace: seq<Layout<Mark>>, g: Grid, children: seq<Child<Mark>>, rank: map<int, nat>,
                                     starts: seq<nat>, x: nat, mark: Mark, at: Index, from: nat, n: nat)
    requires AllMarked(g, children, rank, starts) && |at| == |g.shape| && from <= n <= |children| && !(from <= x < n)
    requires IsMerge(trace, g, Blank, children, rank, starts)
    requires mark.Mark? && mark.child == x && Value(trace[from], g, at) != mark
    ensures Value(trace[n], g, at) != mark
    decreases n
  {
    if n > from {
      StaysLost(trace, g, children, rank, starts, x, mark, at, from, n - 1);
      StepKeepsLost(trace, g, children, rank, starts, x, mark, at, n - 1);
    }
  }

  /** A spot of x that does not hold its mark in the end did not read back. */
  lemma LostSpot(layout: Layout<Mark>, g: Grid, children: seq<Child<Mark>>, rank: map<int, nat>, starts: seq<nat>,
                 x: nat, d: nat, n: nat)
    requires AllMarked(g, children, rank, starts) && x < |children| && d < |g.shape|
    requires (d == g.axis ==> n == 0) && n <= children[x].grid.shape[d]
    requires var idx := Spot(|g.shape|, d, n);
             Value(layout, g, Target(g, starts[x], idx)) != MarkOf(x, children[x].grid, idx)
    ensures !ReadsBack(layout, g, Blank, children[x], starts[x])
  {
    SpotIsMarked(x, children[x].ids, children[x].grid, d, n);
    assert !ReadsBackAt(layout, g, Blank, children[x], starts[x], Spot(|g.shape|, d, n));
  }

  /** A linked child whose spot the link puts elsewhere loses it. */
  lemma LinkLosesSpot(trace: seq<Layout<Mark>>, g: Grid, children: seq<Child<Mark>>, rank: map<int, nat>, starts: seq<nat>,
                      j: nat, d: nat, n: nat)
    requires AllMarked(g, children, rank, starts) && j < |children| && d < |g.shape|
    requires IsMerge(trace, g, Blank, children, rank, starts)
    requires Links(g, children[j]) && (d == g.axis ==> n == 0) && n <= children[j].grid.shape[d]
    requires var idx := Spot(|g.shape|, d, n);
             Misplaced(g, children[j].grid, starts[j], idx)
    ensures !ReadsBack(trace[|children|], g, Blank, children[j], starts[j])
  {
    var idx := Spot(|g.shape|, d, n);
    var mark, at := MarkOf(j, children[j].grid, idx), Target(g, starts[j], idx);
    assert Value(trace[0], g, at) == Blank;
    StaysLost(trace, g, children, rank, starts, j, mark, at, 0, j);
    assert MergeStep(trace[j], trace[j + 1], g, Blank, children[j], starts[j]);
    LinkValue(trace[j], trace[j + 1], g, j, children[j].ids, children[j].grid, starts[j], at);
    StaysLost(trace, g, children, rank, starts, j, mark, at, j + 1, |children|);
    LostSpot(trace[|children|], g, children, rank, starts, j, d, n);
  }

  /** The chunk a link would bring to the destination of idx, or the offset read there, is not the one of idx. */
  predicate Misplaced(g: Grid, grid: Grid, start: nat, idx: Index)
    requires Valid(g) && Valid(grid) && |idx| == |g.shape| == |grid.shape|
  {
    var at := Target(g, start, idx);
    || OffsetOf(g, at) != OffsetOf(grid, idx)
    || (exists e :: 0 <= e < |idx| && e != g.axis && KeyOf(g, at)[e] != KeyOf(grid, idx)[e])
  }

  // ---------------------------------------------------------------------------------------
  // The three ways an order is unsafe

  /** A run that starts inside the last chunk of an aligned run of n members from t. */
  lemma InsideLastChunk(w: nat, s: nat, t: nat, n: nat)
    requires w > 0 && n > 0 && t % w == 0 && t + n <= s && s / w <= (t + n - 1) / w
    ensures t / w <= s / w && (s / w - t / w) * w < n
  {
    DivMonotone(t, s, w);
    DivMonotone(t + n - 1, s, w);
    var e := t + n - 1;
    var q := e / w;
    assert q == s / w;
    assert e == q * w + e % w;
    assert t == (t / w) * w;
    assert (q - t / w) * w == q * w - (t / w) * w;
  }

  /** Two runs of members that do not overlap share a chunk only if the later one starts inside it. */
  lemma MeetInside(w: nat, s: nat, m: nat, t: nat, n: nat)
    requires w > 0 && m > 0 && n > 0 && t % w == 0
    requires s + m <= t || t + n <= s
    requires SpansMeet(w, s, m, t, n)
    ensures t / w <= s / w && (s / w - t / w) * w < n
  {
    if s + m <= t {
      BeforeBoundary(w, s + m - 1, t);
    } else {
      InsideLastChunk(w, s, t, n);
    }
  }

  /** A linked child with another chunk size in some dimension loses an element of its first member. */
  lemma MismatchLosesElement(trace: seq<Layout<Mark>>, g: Grid, children: seq<Child<Mark>>, rank: map<int, nat>,
                             starts: seq<nat>, j: nat)
    requires AllMarked(g, children, rank, starts) && j < |children|
    requires IsMerge(trace, g, Blank, children, rank, starts)
    requires Links(g, children[j]) && children[j].grid != g
    ensures !ReadsBack(trace[|children|], g, Blank, children[j], starts[j])
  {
    var grid := children[j].grid;
    assert grid.shape != g.shape;
    var d :| 0 <= d < |g.shape| && grid.shape[d] != g.shape[d];
    var n := if grid.shape[d] < g.shape[d] then grid.shape[d] else g.shape[d];
    MismatchMisplaces(g, grid, starts[j], d, n);
    LinkLosesSpot(trace, g, children, rank, starts, j, d, n);
  }

  lemma MismatchMisplaces(g: Grid, grid: Grid, start: nat, d: nat, n: nat)
    requires Valid(g) && Valid(grid) && |grid.shape| == |g.shape| && d < |g.shape| && d != g.axis
    requires grid.shape[d] != g.shape[d] && n == if grid.shape[d] < g.shape[d] then grid.shape[d] else g.shape[d]
    ensures Misplaced(g, grid, start, Spot(|g.shape|, d, n))
  {
    var idx := Spot(|g.shape|, d, n);
    var at := Target(g, start, idx);
    SmallQuotient(n, grid.shape[d]);
    SmallQuotient(n, g.shape[d]);
    assert KeyOf(g, at)[d] != KeyOf(grid, idx)[d];
  }

  /** A linked child that does not begin on a chunk boundary loses its first member. */
  lemma UnalignedLosesMember(trace: seq<Layout<Mark>>, g: Grid, children: seq<Child<Mark>>, rank: map<int, nat>,
                             starts: seq<nat>, j: nat)
    requires AllMarked(g, children, rank, starts) && j < |children|
    requires IsMerge(trace, g, Blank, children, rank, starts)
    requires Links(g, children[j]) && starts[j] % Width(g) != 0
    ensures !ReadsBack(trace[|children|], g, Blank, children[j], starts[j])
  {
    var idx := Spot(|g.shape|, g.axis, 0);
    var at := Target(g, starts[j], idx);
    SmallQuotient(0, Width(g));
    assert OffsetOf(g, at)[g.axis] != OffsetOf(children[j].grid, idx)[g.axis];
    LinkLosesSpot(trace, g, children, rank, starts, j, g.axis, 0);
  }

  /** A linked child replaces the chunk in which an earlier child's first member was. */
  lemma OverwrittenMember(trace: seq<Layout<Mark>>, g: Grid, children: seq<Child<Mark>>, rank: map<int, nat>,
                          starts: seq<nat>, i: nat, j: nat)
    requires AllMarked(g, children, rank, starts) && i < j < |children|
    requires IsMerge(trace, g, Blank, children, rank, starts)
    requires Links(g, children[j]) && starts[j] % Width(g) == 0
    requires SpansMeet(Width(g), starts[i], |children[i].ids|, starts[j], |children[j].ids|)
    ensures !ReadsBack(trace[|children|], g, Blank, children[i], starts[i])
  {
    var idx := Spot(|g.shape|, g.axis, 0);
    var mark, at := MarkOf(i, children[i].grid, idx), Target(g, starts[i], idx);
    MeetInside(Width(g), starts[i], |children[i].ids|, starts[j], |children[j].ids|);
    assert MergeStep(trace[j], trace[j + 1], g, Blank, children[j], starts[j]);
    ReplacedAt(trace[j], trace[j + 1], g, j, children[j].ids, children[j].grid, starts[j], starts[i]);
    StaysLost(trace, g, children, rank, starts, i, mark, at, j + 1, |children|);
    LostSpot(trace[|children|], g, children, rank, starts, i, g.axis, 0);
  }

  /** The link of a child puts one of its own marks at the first member of a run that starts in its span. */
  lemma ReplacedAt(before: Layout<Mark>, after: Layout<Mark>, g: Grid, x: nat, ids: seq<int>, grid: Grid, start: nat, s: nat)
    requires MergeStep(before, after, g, Blank, MarkedChild(x, ids, grid), start) && Width(grid) == Width(g)
    requires grid.axis == g.axis
    requires start / Width(g) <= s / Width(g) && (s / Width(g) - start / Width(g)) * Width(g) < |ids|
    ensures var v := Value(after, g, Target(g, s, Spot(|g.shape|, g.axis, 0)));
            v.Mark? && v.child == x
  {
    var at := Target(g, s, Spot(|g.shape|, g.axis, 0));
    var key := KeyOf(g, at);
    LinkValue(before, after, g, x, ids, grid, start, at);
    assert key[g.axis] == s / Width(g);
    var source := SourceKey(g, start, |ids|, key);
    ProductAtLeast(source[g.axis], Width(g));
    forall d | 0 <= d < |source| && d != g.axis ensures source[d] < 2 {
      SmallQuotient(0, g.shape[d]);
    }
    MarkedFile(x, ids, grid, source);
  }

  lemma ProductAtLeast(q: nat, w: nat)
    requires w > 0
    ensures q <= q * w
  {
  }

  // ---------------------------------------------------------------------------------------
  // Exactness

  /** Whenever the order is not safe, some child does not read back. */
  lemma UnsafeOrderLosesMember(trace: seq<Layout<Mark>>, g: Grid, children: seq<Child<Mark>>, rank: map<int, nat>,
                               starts: seq<nat>) returns (x: nat)
    requires AllMarked(g, children, rank, starts)
    requires IsMerge(trace, g, Blank, children, rank, starts)
    requires !SafeOrder(g, children, rank, starts)
    ensures x < |children| && !ReadsBack(trace[|children|], g, Blank, children[x], starts[x])
  {
    var w := Width(g);
    var j :| 0 <= j < |children| && Links(g, children[j])
             && !(children[j].grid == g && starts[j] % w == 0
                  && forall i :: 0 <= i < j ==> !SpansMeet(w, starts[i], |children[i].ids|, starts[j], |children[j].ids|));
    if children[j].grid != g {
      MismatchLosesElement(trace, g, children, rank, starts, j);
      x := j;
    } else if starts[j] % w != 0 {
      UnalignedLosesMember(trace, g, children, rank, starts, j);
      x := j;
    } else {
      x :| 0 <= x < j && SpansMeet(w, starts[x], |children[x].ids|, starts[j], |children[j].ids|);
      OverwrittenMember(trace, g, children, rank, starts, x, j);
    }
  }

  /** In any number of dimensions, the merge of marked children is right exactly when the order is safe. */
  lemma SafeOrderIsExact(trace: seq<Layout<Mark>>, g: Grid, children: seq<Child<Mark>>, rank: map<int, nat>, starts: seq<nat>)
    requires AllMarked(g, children, rank, starts)
    requires IsMerge(trace, g, Blank, children, rank, starts)
    ensures (forall x :: 0 <= x < |children| ==> ReadsBack(trace[|children|], g, Blank, children[x], starts[x]))
            <==> SafeOrder(g, children, rank, starts)
  {
    if SafeOrder(g, children, rank, starts) {
      SafeMerge(trace, g, Blank, children, rank, starts, |children|);
    } else {
      var x := UnsafeOrderLosesMember(trace, g, children, rank, starts);
    }
  }

  /** A single marked child of another grid can be placed: its files have a key of the right length. */
  lemma OneIsMarked(g: Grid, grid: Grid)
    requires Valid(g) && Valid(grid) && grid.axis == g.axis && |grid.shape| == |g.shape|
    ensures AllMarked(g, [MarkedChild(0, [0], grid)], map[0 := 0], [0])
  {
    var c := MarkedChild(0, [0], grid);
    forall key | key in c.files ensures |key| == |g.shape| { MarkedFileShape(0, [0], grid, key); }
  }

  /** Merging a single child that is linked. */
  lemma OneIsMerged(g: Grid, children: seq<Child<Mark>>, rank: map<int, nat>, starts: seq<nat>) returns (trace: seq<Layout<Mark>>)
    requires Placed(g, children, rank, starts) && |children| == 1 && Links(g, children[0])
    ensures IsMerge(trace, g, Blank, children, rank, starts)
  {
    var blank: Layout<Mark> := key => None;
    trace := [blank, Linked(blank, g, children[0], starts[0])];
  }

  /** Every grid with the destination's ensemble chunk size and another size elsewhere is that of an unsafe merge, which loses an element. */
  lemma MismatchIsPossible(g: Grid, grid: Grid) returns (trace: seq<Layout<Mark>>)
    requires Valid(g) && Valid(grid) && grid.axis == g.axis && |grid.shape| == |g.shape|
    requires Width(grid) == Width(g) && grid != g
    ensures var children := [MarkedChild(0, [0], grid)];
            && AllMarked(g, children, map[0 := 0], [0]) && IsMerge(trace, g, Blank, children, map[0 := 0], [0])
            && !SafeOrder(g, children, map[0 := 0], [0]) && !ReadsBack(trace[1], g, Blank, children[0], 0)
  {
    var children := [MarkedChild(0, [0], grid)];
    OneIsMarked(g, grid);
    assert Links(g, children[0]);
    trace := OneIsMerged(g, children, map[0 := 0], [0]);
    MismatchLosesElement(trace, g, children, map[0 := 0], [0], 0);
  }

  /** A child of chunk shape 1 by 3 linked into a destination of chunk shape 1 by 2: element (0, 2) reads what the child has at (0, 3). */
  lemma MismatchedChild(after: Layout<Mark>)
    requires MergeStep(key => None, after, Grid(0, [1, 2]), Blank, MarkedChild(0, [0], Grid(0, [1, 3])), 0)
    ensures var c := MarkedChild(0, [0], Grid(0, [1, 3]));
            && Links(Grid(0, [1, 2]), c)
            && Value(after, Grid(0, [1, 2]), [0, 2]) == ChildAt(c, Blank, [0, 3])
            && ChildAt(c, Blank, [0, 2]) != ChildAt(c, Blank, [0, 3])
  {
    var g, grid := Grid(0, [1, 2]), Grid(0, [1, 3]);
    assert KeyOf(g, [0, 2]) == [0, 1] && OffsetOf(g, [0, 2]) == [0, 0];
    assert KeyOf(grid, [0, 3]) == [0, 1] && OffsetOf(grid, [0, 3]) == [0, 0];
    assert KeyOf(grid, [0, 2]) == [0, 0] && OffsetOf(grid, [0, 2]) == [0, 2];
    MarkedFile(0, [0], grid, [0, 1]);
    MarkedFile(0, [0], grid, [0, 0]);
    LinkValue(key => None, after, g, 0, [0], grid, 0, [0, 2]);
    assert SourceKey(g, 0, 1, [0, 1]) == [0, 1];
  }
}
