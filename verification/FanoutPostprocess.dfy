/**
  postprocess_ensemble_fanout_result: which children are aggregated, and what the aggregated store
  holds. xarray's concatenation and sort supply the sorted ensemble coordinate; chunk data is
  merged by ChunkMerge.
*/
module FanoutPostprocess {
  import opened ChunkGrid
  import opened ChunkMerge
  import opened Fanout
  import opened FanoutMerge

  datatype Status = Succeeded | Failed | Cancelled

  /** What a child run reported: its member ids, if it listed any, and its store, if it is on disk. */
  datatype Report<!T> = Report(status: Status, ids: Option<seq<int>>, store: Option<Store<T>>)

  datatype Store<!T> = Store(grid: Grid, files: map<Key, Chunk<T>>)

  /** An element of child_results; `Junk` is anything that is not an object with a result object. */
  datatype Entry<!T> = Junk | Entry(report: Report<T>)

  /** The aggregated array: a copy of the only child's store, or a merged one. */
  datatype Dataset<!T> = Dataset(grid: Grid, layout: Layout<T>)

  datatype Outcome<!T> =
    | Raised
    | Done(dataset: Option<Dataset<T>>, aggregated: nat, skipped: nat, status: Status)

  predicate Usable<T>(e: Entry<T>) {
    && e.Entry? && e.report.status.Succeeded? && e.report.store.Some?
    && e.report.ids.Some? && e.report.ids.value != []
  }

  function ChildOf<T>(e: Entry<T>): Child<T>
    requires Usable(e)
  {
    Child(e.report.ids.value, e.report.store.value.grid, e.report.store.value.files)
  }

  function Candidates<T>(entries: seq<Entry<T>>): seq<Child<T>> {
    if entries == [] then []
    else Candidates(entries[..|entries| - 1])
         + (if Usable(entries[|entries| - 1]) then [ChildOf(entries[|entries| - 1])] else [])
  }

  /** The counting loop over child_results. */
  method Collect<T>(entries: seq<Entry<T>>) returns (candidates: seq<Child<T>>, skipped: nat)
    ensures candidates == Candidates(entries)
    ensures |candidates| + skipped == |entries|
    ensures skipped == 0 <==> forall i :: 0 <= i < |entries| ==> Usable(entries[i])
  {
    candidates, skipped := [], 0;
    for i := 0 to |entries|
      invariant candidates == Candidates(entries[..i])
      invariant |candidates| + skipped == i
      invariant skipped == 0 <==> forall j :: 0 <= j < i ==> Usable(entries[j])
    {
      assert entries[..i + 1][..i] == entries[..i];
      if Usable(entries[i]) {
        candidates := candidates + [ChildOf(entries[i])];
      } else {
        skipped := skipped + 1;
      }
    }
    assert entries[..|entries|] == entries;
  }

  /** What makes a child unusable: no result object, a status other than success, no store, or no member ids. */
  predicate LeftOut<T>(e: Entry<T>) {
    match e
    case Junk => true
    case Entry(Report(status, ids, store)) => status == Failed || status == Cancelled || store.None? || ids.None? || ids == Some([])
  }

  lemma UsableUnlessLeftOut<T>(e: Entry<T>)
    ensures Usable(e) <==> !LeftOut(e)
  {
  }

  lemma {:induction false} CandidatesConcat<T>(x: seq<Entry<T>>, y: seq<Entry<T>>)
    ensures Candidates(x + y) == Candidates(x) + Candidates(y)
    decreases |y|
  {
    if y == [] {
      assert x + y == x;
    } else {
      var n := |y| - 1;
      assert (x + y)[..|x + y| - 1] == x + y[..n];
      CandidatesConcat(x, y[..n]);
    }
  }

  lemma CandidatesOfThree<T>(x: seq<Entry<T>>, y: seq<Entry<T>>, z: seq<Entry<T>>)
    ensures Candidates(x + y + z) == Candidates(x) + Candidates(y) + Candidates(z)
  {
    CandidatesConcat(x + y, z);
    CandidatesConcat(x, y);
  }

  /** The one child of a candidate, with the member ids, the grid and the files it reported. */
  lemma CandidateIs<T>(e: Entry<T>)
    ensures LeftOut(e) ==> Candidates([e]) == []
    ensures !LeftOut(e) ==>
              && e.Entry? && e.report.ids.Some? && e.report.store.Some?
              && Candidates([e]) == [Child(e.report.ids.value, e.report.store.value.grid, e.report.store.value.files)]
  {
    UsableUnlessLeftOut(e);
    assert [e][..0] == [];
  }

  /** A child that is left out contributes nothing; any other contributes its store, in its place. */
  lemma LeftOutIsIgnored<T>(before: seq<Entry<T>>, e: Entry<T>, after: seq<Entry<T>>)
    ensures LeftOut(e) ==> Candidates(before + [e] + after) == Candidates(before + after)
    ensures !LeftOut(e) ==>
              && e.Entry? && e.report.ids.Some? && e.report.store.Some?
              && var child := Child(e.report.ids.value, e.report.store.value.grid, e.report.store.value.files);
                 Candidates(before + [e] + after) == Candidates(before) + [child] + Candidates(after)
  {
    CandidatesOfThree(before, [e], after);
    CandidatesConcat(before, after);
    CandidateIs(e);
    assert Candidates(before) + [] == Candidates(before);
  }

  /** With nothing skipped the candidates are the children, in order. */
  lemma {:induction false} AllCandidates<T>(entries: seq<Entry<T>>, i: nat)
    requires forall j :: 0 <= j < |entries| ==> Usable(entries[j])
    requires i < |entries|
    ensures |Candidates(entries)| == |entries| && Candidates(entries)[i] == ChildOf(entries[i])
    decreases |entries|
  {
    var m := |entries| - 1;
    if m > 0 {
      AllCandidates(entries[..m], if i < m then i else 0);
    }
  }

  /** Position r of the dataset holds what element idx of child c holds. */
  ghost predicate Holds<T(!new)>(d: Dataset<T>, fill: T, r: nat, c: Child<T>, l: nat)
    requires Valid(d.grid) && Valid(c.grid) && |c.grid.shape| == |d.grid.shape|
  {
    forall idx: Index {:trigger ReadAt(d.layout, d.grid, fill, Moved(idx, d.grid.axis, r))} ::
      |idx| == |d.grid.shape| ==>
        ReadAt(d.layout, d.grid, fill, Moved(idx, d.grid.axis, r)) == ChildAt(c, fill, Moved(idx, d.grid.axis, l))
  }

  lemma ReadsBackHolds<T(!new)>(d: Dataset<T>, fill: T, c: Child<T>, start: nat, l: nat)
    requires Valid(d.grid) && Valid(c.grid) && |c.grid.shape| == |d.grid.shape| && l < |c.ids|
    requires ReadsBack(d.layout, d.grid, fill, c, start)
    ensures Holds(d, fill, start + l, c, l)
  {
    var axis := d.grid.axis;
    forall idx: Index | |idx| == |d.grid.shape|
      ensures ReadAt(d.layout, d.grid, fill, Moved(idx, axis, start + l)) == ChildAt(c, fill, Moved(idx, axis, l))
    {
      var at := Moved(idx, axis, l);
      assert ReadsBackAt(d.layout, d.grid, fill, c, start, at);
      assert Moved(at, axis, start + l) == Moved(idx, axis, start + l);
    }
  }

  /**
    The merged store is the concatenation sorted by member id: position r holds, at every element,
    what the child that has member sorted[r] holds for it.
  */
  ghost predicate ConcatSorted<T(!new)>(d: Dataset<T>, fill: T, children: seq<Child<T>>, sorted: seq<int>) {
    && Valid(d.grid)
    && forall j, l :: 0 <= j < |children| && 0 <= l < |children[j].ids| ==> AtItsRank(d, fill, children[j], sorted, l)
  }

  ghost predicate AtItsRank<T(!new)>(d: Dataset<T>, fill: T, c: Child<T>, sorted: seq<int>, l: nat)
    requires Valid(d.grid) && l < |c.ids|
  {
    && Valid(c.grid) && |c.grid.shape| == |d.grid.shape|
    && exists r :: 0 <= r < |sorted| && sorted[r] == c.ids[l] && Holds(d, fill, r, c, l)
  }

  lemma MemberIsAtRank<T(!new)>(d: Dataset<T>, fill: T, c: Child<T>, sorted: seq<int>, start: nat, l: nat) returns (r: nat)
    requires Valid(d.grid) && Valid(c.grid) && |c.grid.shape| == |d.grid.shape| && l < |c.ids|
    requires Increasing(sorted) && c.ids[l] in sorted && Consecutive(c, RankOf(sorted), start)
    requires ReadsBack(d.layout, d.grid, fill, c, start)
    ensures r < |sorted| && sorted[r] == c.ids[l] && Holds(d, fill, r, c, l)
  {
    ReadsBackHolds(d, fill, c, start, l);
    r :| 0 <= r < |sorted| && sorted[r] == c.ids[l];
    assert RankOf(sorted)[c.ids[l]] == start + l;
  }

  lemma ReadBackIsConcat<T(!new)>(d: Dataset<T>, fill: T, children: seq<Child<T>>, sorted: seq<int>, starts: seq<nat>)
    requires Valid(d.grid) && SortedMembers(sorted, children) && |starts| == |children|
    requires forall j :: 0 <= j < |children| ==>
               && Valid(children[j].grid) && |children[j].grid.shape| == |d.grid.shape|
               && Consecutive(children[j], RankOf(sorted), starts[j])
               && ReadsBack(d.layout, d.grid, fill, children[j], starts[j])
    ensures ConcatSorted(d, fill, children, sorted)
  {
    forall j, l | 0 <= j < |children| && 0 <= l < |children[j].ids|
      ensures AtItsRank(d, fill, children[j], sorted, l)
    {
      assert children[j].ids[l] in sorted;
      var r := MemberIsAtRank(d, fill, children[j], sorted, starts[j], l);
    }
  }

  /** _merge_zarr_child_stores */
  method MergeStores<T(!new)>(children: seq<Child<T>>, grid: Grid, fill: T, sorted: seq<int>, requested: int,
                              ghost of: seq<nat>, ghost n: nat, ghost size: nat) returns (out: Option<Dataset<T>>)
    requires FanoutChildren(grid, children, of, n, size) && SortedMembers(sorted, children)
    requires Valid(grid) && size % Width(grid) == 0
    ensures out.None? <==> |sorted| > requested
    ensures out.Some? ==> out.value.grid == grid
    ensures out.Some? && SharedGrid(grid, children) ==> ConcatSorted(out.value, fill, children, sorted)
  {
    if |sorted| > requested {
      return None;
    }
    ghost var starts := FanoutIsSafe(grid, children, of, sorted, n, size);
    var destination := new Destination(grid, fill);
    ghost var trace := destination.MergeChildren(children, RankOf(sorted), starts);
    var d := Dataset(grid, destination.chunks);
    if SharedGrid(grid, children) { ReadBackIsConcat(d, fill, children, sorted, starts); }
    return Some(d);
  }

  // ---------------------------------------------------------------------------------------
  // The whole postprocess step

  function HighestId<T>(children: seq<Child<T>>): int {
    if children == [] then -1
    else Max(HighestId(children[..|children| - 1]), HighestOf(children[|children| - 1].ids))
  }

  function HighestOf(ids: seq<int>): int {
    if ids == [] then -1 else Max(HighestOf(ids[..|ids| - 1]), ids[|ids| - 1])
  }

  function Max(x: int, y: int): int { if x >= y then x else y }

  /** The ensemble size the merge may not exceed: the requested one, or one past the highest member id. */
  function EnsembleLimit<T>(nensemble: int, children: seq<Child<T>>): int {
    if nensemble >= 1 then nensemble else 1 + HighestId(children)
  }

  lemma {:induction false} HighestOfIsBound(ids: seq<int>, x: int)
    requires x in ids
    ensures x <= HighestOf(ids)
    decreases |ids|
  {
    if x != ids[|ids| - 1] {
      HighestOfIsBound(ids[..|ids| - 1], x);
    }
  }

  lemma {:induction false} HighestIdIsBound<T>(children: seq<Child<T>>, j: nat, x: int)
    requires j < |children| && x in children[j].ids
    ensures x <= HighestId(children)
    decreases |children|
  {
    var m := |children| - 1;
    if j < m {
      HighestIdIsBound(children[..m], j, x);
    } else {
      HighestOfIsBound(children[m].ids, x);
    }
  }

  lemma {:induction false} IncreasingFromZero(xs: seq<int>, i: nat)
    requires Increasing(xs) && i < |xs| && forall x :: x in xs ==> x >= 0
    ensures xs[i] >= i
    decreases i
  {
    assert xs[i] in xs;
    if i > 0 {
      IncreasingFromZero(xs, i - 1);
    }
  }

  lemma MemberBounds<T>(g: Grid, children: seq<Child<T>>, of: seq<nat>, n: nat, size: nat, j: nat, x: int)
    requires FanoutChildren(g, children, of, n, size) && j < |children| && x in children[j].ids
    ensures 0 <= x < n && x <= HighestId(children)
  {
    HighestIdIsBound(children, j, x);
    BatchBounds(of[j], n, size, x);
  }

  lemma FewUpTo(sorted: seq<int>, top: int)
    requires Increasing(sorted) && top >= -1 && forall x :: x in sorted ==> 0 <= x <= top
    ensures |sorted| <= 1 + top
  {
    if sorted != [] {
      IncreasingFromZero(sorted, |sorted| - 1);
      assert sorted[|sorted| - 1] in sorted;
    }
  }

  /** Without a requested size the limit is never exceeded. */
  lemma DefaultLimitSuffices<T>(g: Grid, children: seq<Child<T>>, of: seq<nat>, sorted: seq<int>, n: nat, size: nat)
    requires FanoutChildren(g, children, of, n, size) && SortedMembers(sorted, children)
    ensures |sorted| <= 1 + HighestId(children)
    ensures forall x :: x in sorted ==> 0 <= x < n
  {
    var top := HighestId(children);
    forall x | x in sorted ensures 0 <= x < n && x <= top {
      var j :| 0 <= j < |children| && x in children[j].ids;
      MemberBounds(g, children, of, n, size, j, x);
    }
    NoHighest(children);
    FewUpTo(sorted, top);
  }

  lemma {:induction false} NoHighest<T>(children: seq<Child<T>>)
    ensures HighestId(children) >= -1
    decreases |children|
  {
    if children != [] {
      NoHighest(children[..|children| - 1]);
    }
  }

  /** The candidates come from the batches `of` of a fan-out, and `sorted` is their ensemble coordinate. */
  ghost predicate FromFanout<T>(grid: Grid, children: seq<Child<T>>, of: seq<nat>, sorted: seq<int>, n: nat, size: nat) {
    && FanoutChildren(grid, children, of, n, size) && SortedMembers(sorted, children)
    && Valid(grid) && size % Width(grid) == 0
  }

  /**
    Aggregated plus skipped is the number of children. The run succeeds exactly when there is at
    least one child, none was skipped and none failed to be collected. One candidate is copied;
    several are merged, unless they exceed a requested ensemble size.
  */
  ghost predicate Postprocessed<T(!new)>(out: Outcome<T>, entries: seq<Entry<T>>, collectFailed: nat, nensemble: int,
                                         grid: Grid, fill: T, sorted: seq<int>)
  {
    var candidates := Candidates(entries);
    && (out.Raised? <==> |candidates| >= 2 && 1 <= nensemble < |sorted|)
    && (out.Done? ==>
          && out.aggregated == |candidates| && out.aggregated + out.skipped == |entries|
          && (out.status.Succeeded? <==> collectFailed == 0 && out.skipped == 0 && entries != [])
          && (out.skipped == 0 <==> forall i :: 0 <= i < |entries| ==> Usable(entries[i]))
          && (out.dataset.None? <==> candidates == [])
          && (|candidates| == 1 ==> out.dataset == Some(Dataset(candidates[0].grid, FileLayout(candidates[0].files))))
          && (|candidates| >= 2 && SharedGrid(grid, candidates) ==> ConcatSorted(out.dataset.value, fill, candidates, sorted)))
  }

  /** No candidate gives no store, one is copied, several are merged unless they exceed a requested ensemble size. */
  method Combine<T(!new)>(candidates: seq<Child<T>>, nensemble: int, grid: Grid, fill: T, sorted: seq<int>,
                          ghost of: seq<nat>, ghost n: nat, ghost size: nat) returns (dataset: Option<Dataset<T>>)
    requires FromFanout(grid, candidates, of, sorted, n, size)
    ensures dataset.None? <==> candidates == [] || (|candidates| >= 2 && 1 <= nensemble < |sorted|)
    ensures |candidates| == 1 ==> dataset == Some(Dataset(candidates[0].grid, FileLayout(candidates[0].files)))
    ensures |candidates| >= 2 && dataset.Some? && SharedGrid(grid, candidates) ==>
              ConcatSorted(dataset.value, fill, candidates, sorted)
  {
    if candidates == [] { return None; }
    if |candidates| == 1 { return Some(Dataset(candidates[0].grid, FileLayout(candidates[0].files))); }
    DefaultLimitSuffices(grid, candidates, of, sorted, n, size);
    dataset := MergeStores(candidates, grid, fill, sorted, EnsembleLimit(nensemble, candidates), of, n, size);
  }

  method Postprocess<T(!new)>(entries: seq<Entry<T>>, collectFailed: nat, nensemble: int, grid: Grid, fill: T,
                              sorted: seq<int>, ghost of: seq<nat>, ghost n: nat, ghost size: nat)
    returns (out: Outcome<T>)
    requires FromFanout(grid, Candidates(entries), of, sorted, n, size)
    ensures Postprocessed(out, entries, collectFailed, nensemble, grid, fill, sorted)
  {
    var candidates, skipped := Collect(entries);
    var dataset := Combine(candidates, nensemble, grid, fill, sorted, of, n, size);
    if candidates != [] && dataset.None? {
      return Raised;
    }
    var failed := collectFailed > 0 || candidates == [] || skipped > 0;
    return Done(dataset, |candidates|, skipped, if failed then Failed else Succeeded);
  }

  /** A postprocess with a child that is left out does not succeed, and counts it as skipped. */
  lemma LeftOutFails<T(!new)>(out: Outcome<T>, entries: seq<Entry<T>>, collectFailed: nat, nensemble: int, grid: Grid, fill: T,
                              sorted: seq<int>, i: nat)
    requires Postprocessed(out, entries, collectFailed, nensemble, grid, fill, sorted) && out.Done?
    requires i < |entries| && LeftOut(entries[i])
    ensures out.skipped > 0 && !out.status.Succeeded?
  {
    UsableUnlessLeftOut(entries[i]);
  }

  // ---------------------------------------------------------------------------------------
  // Completeness

  ghost function Below(n: nat): (r: set<nat>)
    ensures |r| == n && forall k: nat :: k in r <==> k < n
  {
    if n == 0 then {} else Below(n - 1) + {n - 1}
  }

  ghost function Elements(xs: seq<nat>): (r: set<nat>)
    ensures forall x :: x in r <==> x in xs
    ensures (forall i, j :: 0 <= i < j < |xs| ==> xs[i] != xs[j]) ==> |r| == |xs|
  {
    if xs == [] then {} else Elements(xs[..|xs| - 1]) + {xs[|xs| - 1]}
  }

  lemma SameSize(a: set<nat>, b: set<nat>)
    requires a <= b && |a| == |b|
    ensures a == b
  {
    var missing := b - a;
    assert b == a + missing;
    assert |missing| == 0;
  }

  /** n distinct numbers below n are all of them. */
  lemma Pigeonhole(xs: seq<nat>, k: nat)
    requires forall i, j :: 0 <= i < j < |xs| ==> xs[i] != xs[j]
    requires forall i :: 0 <= i < |xs| ==> xs[i] < |xs|
    requires k < |xs|
    ensures k in xs
  {
    var all, got := Below(|xs|), Elements(xs);
    forall x | x in got ensures x in all {
      var i :| 0 <= i < |xs| && xs[i] == x;
    }
    SameSize(got, all);
    assert k in all;
  }

  /** As many different batches as there are include every one of them. */
  lemma BatchPresent(of: seq<nat>, n: nat, size: nat, k: nat)
    requires size > 0 && |of| == BatchCount(n, size) && k < |of|
    requires forall i, j :: 0 <= i < j < |of| ==> of[i] != of[j]
    requires forall i :: 0 <= i < |of| ==> of[i] * size < n
    ensures k in of
  {
    forall i | 0 <= i < |of| ensures of[i] < |of| { BatchInRange(of[i], n, size); }
    Pigeonhole(of, k);
  }

  /** With one child for every batch, every member is in some child. */
  lemma MemberPresent<T>(grid: Grid, children: seq<Child<T>>, of: seq<nat>, n: nat, size: nat, m: nat) returns (j: nat)
    requires FanoutChildren(grid, children, of, n, size) && |children| == BatchCount(n, size) && m < n
    ensures j < |children| && m in children[j].ids
  {
    var k := BatchOf(n, size, m);
    BatchPresent(of, n, size, k);
    j :| 0 <= j < |of| && of[j] == k;
    assert children[j].ids == BatchMemberIds(k, n, size);
  }

  /** One child for every batch: the sorted coordinate is 0, 1, ..., n - 1. */
  lemma CompleteCoordinate<T>(grid: Grid, children: seq<Child<T>>, of: seq<nat>, sorted: seq<int>, n: nat, size: nat)
    requires FanoutChildren(grid, children, of, n, size) && SortedMembers(sorted, children)
    requires |children| == BatchCount(n, size)
    ensures sorted == Range(0, n)
  {
    DefaultLimitSuffices(grid, children, of, sorted, n, size);
    forall m: int | 0 <= m < n ensures m in sorted && m in Range(0, n) {
      var j := MemberPresent(grid, children, of, n, size, m);
      assert Range(0, n)[m] == m;
    }
    IncreasingUnique(sorted, Range(0, n));
  }

  lemma RankIsUnique<T(!new)>(d: Dataset<T>, fill: T, c: Child<T>, sorted: seq<int>, l: nat, m: nat)
    requires Valid(d.grid) && l < |c.ids| && AtItsRank(d, fill, c, sorted, l)
    requires Increasing(sorted) && m < |sorted| && sorted[m] == c.ids[l]
    ensures Holds(d, fill, m, c, l)
  {
    var r :| 0 <= r < |sorted| && sorted[r] == c.ids[l] && Holds(d, fill, r, c, l);
    assert r == m;
  }

  /** A complete merged ensemble: index m holds member m, for every member. */
  lemma CompleteEnsemble<T(!new)>(d: Dataset<T>, fill: T, grid: Grid, children: seq<Child<T>>, of: seq<nat>, sorted: seq<int>,
                                  n: nat, size: nat, m: nat) returns (j: nat, l: nat)
    requires FromFanout(grid, children, of, sorted, n, size) && |children| == BatchCount(n, size)
    requires ConcatSorted(d, fill, children, sorted) && m < n
    ensures j < |children| && l < |children[j].ids| && children[j].ids[l] == m
    ensures Valid(children[j].grid) && |children[j].grid.shape| == |d.grid.shape| && Holds(d, fill, m, children[j], l)
  {
    CompleteCoordinate(grid, children, of, sorted, n, size);
    assert sorted[m] == m;
    assert m in sorted;
    j :| 0 <= j < |children| && m in children[j].ids;
    l :| 0 <= l < |children[j].ids| && children[j].ids[l] == m;
    assert AtItsRank(d, fill, children[j], sorted, l);
    RankIsUnique(d, fill, children[j], sorted, l, m);
  }

  /** A copied store has every member where it was. */
  lemma CopiedHolds<T(!new)>(c: Child<T>, fill: T, l: nat)
    requires Valid(c.grid)
    ensures Holds(Dataset(c.grid, FileLayout(c.files)), fill, l, c, l)
  {
  }

  /**
    A succeeded postprocess over one child per fan-out batch means that index m of the aggregated
    store holds member m, for every member of the ensemble. Of several children, the linked ones must
    have the destination's chunk size in every dimension; FanoutMergeIsExact says that this is needed.
  */
  lemma SucceededIsComplete<T(!new)>(out: Outcome<T>, entries: seq<Entry<T>>, collectFailed: nat, nensemble: int, fill: T,
                                     grid: Grid, of: seq<nat>, sorted: seq<int>, n: nat, size: nat, m: nat)
    returns (j: nat, l: nat)
    requires FromFanout(grid, Candidates(entries), of, sorted, n, size) && |entries| == BatchCount(n, size) && m < n
    requires Postprocessed(out, entries, collectFailed, nensemble, grid, fill, sorted)
    requires |entries| == 1 || SharedGrid(grid, Candidates(entries))
    requires out.Done? && out.status.Succeeded?
    ensures j < |Candidates(entries)| && out.dataset.Some?
    ensures var c := Candidates(entries)[j]; var d := out.dataset.value;
            && l < |c.ids| && c.ids[l] == m
            && Valid(c.grid) && Valid(d.grid) && |c.grid.shape| == |d.grid.shape| && Holds(d, fill, m, c, l)
  {
    var children := Candidates(entries);
    if |children| == 1 {
      j, l := 0, m;
      CompleteCoordinate(grid, children, of, sorted, n, size);
      var k := MemberPresent(grid, children, of, n, size, m);
      l :| 0 <= l < |children[0].ids| && children[0].ids[l] == m;
      SingleBatch(n, size, of[0], l);
      CopiedHolds(children[0], fill, l);
    } else {
      j, l := CompleteEnsemble(out.dataset.value, fill, grid, children, of, sorted, n, size, m);
    }
  }

  /** In a fan-out of one batch, member number l is member l. */
  lemma SingleBatch(n: nat, size: nat, k: nat, l: nat)
    requires size > 0 && BatchCount(n, size) == 1 && k * size < n && l < |BatchMemberIds(k, n, size)|
    ensures BatchMemberIds(k, n, size)[l] == l
  {
    BatchInRange(k, n, size);
  }
}
