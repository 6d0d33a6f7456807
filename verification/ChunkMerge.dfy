/**
  Merging the data chunks of child stores into one destination array
  (plugins/earth2-ensemble-fanout/earth2_ensemble_fanout_support.py). A child whose ensemble chunk
  size is the destination's has its chunk files linked under new names; any other child is copied
  member by member. The files themselves are never opened by the first path, so it is right only
  when chunk boundaries of child and destination line up; `SafeOrder` says exactly when they do.
*/
module ChunkMerge {
  import opened ChunkGrid

  /** A child store: its member ids in storage order, and the chunk files of one data array. */
  datatype Child<!T> = Child(ids: seq<int>, grid: Grid, files: map<Key, Chunk<T>>)

  function FileLayout<T>(files: map<Key, Chunk<T>>): Layout<T> {
    key => if key in files then Some(files[key]) else None
  }

  /** What member number idx[axis] of the child holds at idx. */
  function ChildAt<T>(c: Child<T>, fill: T, idx: Index): T
    requires Valid(c.grid) && |idx| == |c.grid.shape|
  {
    ReadAt(FileLayout(c.files), c.grid, fill, idx)
  }

  /** Every member of the child has a destination index (`member_index_by_id`). */
  predicate Ranked<T>(c: Child<T>, rank: map<int, nat>) {
    forall l :: 0 <= l < |c.ids| ==> c.ids[l] in rank
  }

  /** The members of the child are consecutive in the destination, from `start`. */
  predicate Consecutive<T>(c: Child<T>, rank: map<int, nat>, start: nat) {
    Ranked(c, rank) && forall l :: 0 <= l < |c.ids| ==> rank[c.ids[l]] == start + l
  }

  /** _destination_ensemble_chunk_index */
  function DestinationChunkIndex(q: nat, width: nat, destWidth: nat, ids: seq<int>, rank: map<int, nat>): Option<nat>
    requires destWidth > 0 && forall l :: 0 <= l < |ids| ==> ids[l] in rank
  {
    var first := q * width;
    if first >= |ids| then None else Some(rank[ids[first]] / destWidth)
  }

  /** _remap_chunk_tuple, on the numbers the path components spell. */
  function RemapKey(key: Key, axis: nat, width: nat, destWidth: nat, ids: seq<int>, rank: map<int, nat>): Option<Key>
    requires destWidth > 0 && forall l :: 0 <= l < |ids| ==> ids[l] in rank
  {
    if axis >= |key| then None
    else match DestinationChunkIndex(key[axis], width, destWidth, ids, rank)
         case None => None
         case Some(q) => Some(key[axis := q])
  }

  /** Where a child of `len` members starting at destination index `start` puts chunk `key`, seen from the destination. */
  predicate Covers(g: Grid, start: nat, len: nat, key: Key)
    requires Valid(g)
  {
    && |key| == |g.shape|
    && key[g.axis] >= start / Width(g)
    && (key[g.axis] - start / Width(g)) * Width(g) < len
  }

  function SourceKey(g: Grid, start: nat, len: nat, key: Key): Key
    requires Valid(g) && Covers(g, start, len, key)
  {
    key[g.axis := key[g.axis] - start / Width(g)]
  }

  /** The destination after some of a child's files were linked into it. */
  ghost function LinkedSome<T>(layout: Layout<T>, g: Grid, c: Child<T>, start: nat, linked: set<Key>): Layout<T>
    requires Valid(g) && linked <= c.files.Keys
  {
    key => if Covers(g, start, |c.ids|, key) && SourceKey(g, start, |c.ids|, key) in linked
           then Some(c.files[SourceKey(g, start, |c.ids|, key)])
           else layout(key)
  }

  /** The destination after all of a child's files were linked into it. */
  ghost function Linked<T>(layout: Layout<T>, g: Grid, c: Child<T>, start: nat): Layout<T>
    requires Valid(g)
  {
    LinkedSome(layout, g, c, start, c.files.Keys)
  }

  /** Writing one member's slab: whole chunks are rewritten, other members of the chunk are kept. */
  function WithMember<T>(layout: Layout<T>, g: Grid, fill: T, member: nat, slab: Index -> T): Layout<T>
    requires Valid(g)
  {
    key =>
      if |key| == |g.shape| && key[g.axis] == member / Width(g) then
        Some(off =>
          if |off| == |g.shape| && off[g.axis] == member % Width(g) then slab(ElementOf(g, key, off))
          else match layout(key) case None => fill case Some(chunk) => chunk(off))
      else layout(key)
  }

  lemma WithMemberReads<T>(layout: Layout<T>, g: Grid, fill: T, member: nat, slab: Index -> T, idx: Index)
    requires Valid(g) && |idx| == |g.shape|
    ensures ReadAt(WithMember(layout, g, fill, member, slab), g, fill, idx) ==
            if idx[g.axis] == member then slab(idx) else ReadAt(layout, g, fill, idx)
  {
    ElementRoundTrip(g, idx);
    var w := Width(g);
    var e := idx[g.axis];
    assert e == (e / w) * w + e % w;
    assert member == (member / w) * w + member % w;
  }

  // ---------------------------------------------------------------------------------------
  // Which destination chunks a child touches

  /** Chunk number q holds some of the members start .. start + len - 1. */
  predicate InSpan(w: nat, start: nat, len: nat, q: nat)
    requires w > 0 && len > 0
  {
    start / w <= q <= (start + len - 1) / w
  }

  predicate SpansMeet(w: nat, s: nat, m: nat, t: nat, n: nat)
    requires w > 0 && m > 0 && n > 0
  {
    s / w <= (t + n - 1) / w && t / w <= (s + m - 1) / w
  }

  lemma DivMonotone(x: nat, y: nat, w: nat)
    requires x <= y && w > 0
    ensures x / w <= y / w
  {
    assert x == (x / w) * w + x % w && y == (y / w) * w + y % w;
    MultipleIsFar(x / w - y / w, w);
    assert (x / w - y / w) * w == (x / w) * w - (y / w) * w;
  }

  /** Members before a chunk boundary are in earlier chunks. */
  lemma BeforeBoundary(w: nat, e: nat, t: nat)
    requires w > 0 && t % w == 0 && e < t
    ensures e / w < t / w
  {
    assert t == (t / w) * w;
    assert e == (e / w) * w + e % w;
    MultipleIsFar(e / w - t / w + 1, w);
    assert (e / w - t / w + 1) * w == (e / w) * w - (t / w) * w + w;
  }

  lemma MemberInSpan(w: nat, start: nat, len: nat, l: nat)
    requires w > 0 && l < len
    ensures InSpan(w, start, len, (start + l) / w)
  {
    DivMonotone(start, start + l, w);
    DivMonotone(start + l, start + len - 1, w);
  }

  /** A linked file lands in the child's span. */
  lemma CoveredInSpan(g: Grid, start: nat, len: nat, key: Key)
    requires Valid(g) && len > 0 && Covers(g, start, len, key)
    ensures InSpan(Width(g), start, len, key[g.axis])
  {
    var w := Width(g);
    var q := key[g.axis];
    assert (q - start / w) * w == q * w - (start / w) * w;
    assert start == (start / w) * w + start % w;
    DivMonotone(q * w, start + len - 1, w);
    DivModUnique(q, 0, w);
  }

  /** Element idx of the child reads back at its member's destination index. */
  ghost predicate ReadsBackAt<T>(layout: Layout<T>, g: Grid, fill: T, c: Child<T>, start: nat, idx: Index)
    requires Valid(g) && Valid(c.grid) && |c.grid.shape| == |g.shape| && |idx| == |g.shape|
  {
    ReadAt(layout, g, fill, Moved(idx, g.axis, start + idx[g.axis])) == ChildAt(c, fill, idx)
  }

  ghost predicate ReadsBack<T(!new)>(layout: Layout<T>, g: Grid, fill: T, c: Child<T>, start: nat)
    requires Valid(g) && Valid(c.grid) && |c.grid.shape| == |g.shape|
  {
    forall idx: Index {:trigger ReadsBackAt(layout, g, fill, c, start, idx)} ::
      |idx| == |g.shape| && idx[g.axis] < |c.ids| ==> ReadsBackAt(layout, g, fill, c, start, idx)
  }

  // ---------------------------------------------------------------------------------------
  // Linking one child

  lemma LinkedReadsChild<T>(layout: Layout<T>, g: Grid, c: Child<T>, start: nat, fill: T, idx: Index)
    requires Valid(g) && c.grid == g && |idx| == |g.shape| && idx[g.axis] < |c.ids|
    requires start % Width(g) == 0
    requires layout(KeyOf(g, Moved(idx, g.axis, start + idx[g.axis]))) == None
    ensures ReadsBackAt(Linked(layout, g, c, start), g, fill, c, start, idx)
  {
    ShiftedElement(g, idx, start);
    var w := Width(g);
    var l := idx[g.axis];
    var key := KeyOf(g, Moved(idx, g.axis, start + l));
    assert l == (l / w) * w + l % w;
    assert Covers(g, start, |c.ids|, key);
    assert SourceKey(g, start, |c.ids|, key) == KeyOf(g, idx);
  }

  lemma LinkedKeepsOthers<T>(layout: Layout<T>, g: Grid, c: Child<T>, start: nat, fill: T, idx: Index)
    requires Valid(g) && |idx| == |g.shape| && c.ids != []
    requires !InSpan(Width(g), start, |c.ids|, idx[g.axis] / Width(g))
    ensures ReadAt(Linked(layout, g, c, start), g, fill, idx) == ReadAt(layout, g, fill, idx)
  {
    var key := KeyOf(g, idx);
    if Covers(g, start, |c.ids|, key) {
      CoveredInSpan(g, start, |c.ids|, key);
    }
  }

  /** Where the file of chunk `key` goes, for a child with consecutive members. */
  lemma RemapConsecutive<T>(g: Grid, c: Child<T>, rank: map<int, nat>, start: nat, key: Key)
    requires Valid(g) && |key| == |g.shape| && Consecutive(c, rank, start)
    ensures RemapKey(key, g.axis, Width(g), Width(g), c.ids, rank) ==
            if key[g.axis] * Width(g) < |c.ids| then Some(key[g.axis := start / Width(g) + key[g.axis]]) else None
  {
    var w := Width(g);
    var first := key[g.axis] * w;
    AlignedShift(first, start, w) by { DivModUnique(key[g.axis], 0, w); }
    DivModUnique(key[g.axis], 0, w);
    assert first + start == start + first;
  }

  ghost predicate SameLayout<T(!new)>(x: Layout<T>, y: Layout<T>) {
    forall key :: x(key) == y(key)
  }

  /** The destination after file k was linked under its new name, or skipped if it has none. */
  function AfterFile<T>(layout: Layout<T>, g: Grid, c: Child<T>, rank: map<int, nat>, k: Key): Layout<T>
    requires Valid(g) && Ranked(c, rank) && k in c.files
  {
    match RemapKey(k, g.axis, Width(g), Width(g), c.ids, rank)
    case None => layout
    case Some(target) =>
      var chunk := c.files[k];
      key => if key == target then Some(chunk) else layout(key)
  }

  lemma LinkOneMore<T(!new)>(before: Layout<T>, layout: Layout<T>, g: Grid, c: Child<T>, rank: map<int, nat>, start: nat,
                             linked: set<Key>, k: Key)
    requires Valid(g) && linked <= c.files.Keys && Consecutive(c, rank, start)
    requires k in c.files && |k| == |g.shape|
    requires SameLayout(layout, LinkedSome(before, g, c, start, linked))
    ensures SameLayout(AfterFile(layout, g, c, rank, k), LinkedSome(before, g, c, start, linked + {k}))
  {
    RemapConsecutive(g, c, rank, start, k);
    var target := k[g.axis := start / Width(g) + k[g.axis]];
    forall key
      ensures AfterFile(layout, g, c, rank, k)(key) == LinkedSome(before, g, c, start, linked + {k})(key)
    {
      if Covers(g, start, |c.ids|, key) && SourceKey(g, start, |c.ids|, key) == k {
        assert key == target;
      }
      if key == target && k[g.axis] * Width(g) < |c.ids| {
        assert SourceKey(g, start, |c.ids|, key) == k;
      }
    }
  }

  // ---------------------------------------------------------------------------------------
  // Copying one child

  /** The slab of member number l of a child, addressed by destination elements. */
  function Slab<T>(c: Child<T>, axis: nat, fill: T, l: nat): Index -> T {
    idx => if Valid(c.grid) && |idx| == |c.grid.shape| && axis < |idx| then ChildAt(c, fill, Moved(idx, axis, l)) else fill
  }

  /** Members before n read back; everything else reads as before. */
  ghost predicate CopiedAt<T>(before: Layout<T>, layout: Layout<T>, g: Grid, fill: T, c: Child<T>, start: nat, n: nat, idx: Index)
    requires Valid(g) && Valid(c.grid) && |c.grid.shape| == |g.shape| && |idx| == |g.shape|
  {
    ReadAt(layout, g, fill, idx) ==
    if start <= idx[g.axis] < start + n
    then ChildAt(c, fill, Moved(idx, g.axis, idx[g.axis] - start))
    else ReadAt(before, g, fill, idx)
  }

  ghost predicate CopiedUpTo<T(!new)>(before: Layout<T>, layout: Layout<T>, g: Grid, fill: T, c: Child<T>, start: nat, n: nat)
    requires Valid(g) && Valid(c.grid) && |c.grid.shape| == |g.shape|
  {
    forall idx: Index {:trigger CopiedAt(before, layout, g, fill, c, start, n, idx)} ::
      |idx| == |g.shape| ==> CopiedAt(before, layout, g, fill, c, start, n, idx)
  }

  /** Only chunks of the child's own members were created. */
  ghost predicate OnlySpanCreated<T(!new)>(before: Layout<T>, layout: Layout<T>, g: Grid, start: nat, len: nat)
    requires Valid(g) && len > 0
  {
    forall key {:trigger layout(key)} :: layout(key).Some? ==>
      before(key).Some? || (|key| == |g.shape| && InSpan(Width(g), start, len, key[g.axis]))
  }

  lemma CopyOneMoreAt<T>(before: Layout<T>, layout: Layout<T>, g: Grid, fill: T, c: Child<T>, start: nat, l: nat, idx: Index)
    requires Valid(g) && Valid(c.grid) && |c.grid.shape| == |g.shape| && |idx| == |g.shape|
    requires CopiedAt(before, layout, g, fill, c, start, l, idx)
    ensures CopiedAt(before, WithMember(layout, g, fill, start + l, Slab(c, g.axis, fill, l)), g, fill, c, start, l + 1, idx)
  {
    WithMemberReads(layout, g, fill, start + l, Slab(c, g.axis, fill, l), idx);
  }

  lemma CopyCreates<T(!new)>(before: Layout<T>, layout: Layout<T>, g: Grid, fill: T, slab: Index -> T, start: nat, len: nat, l: nat)
    requires Valid(g) && l < len && OnlySpanCreated(before, layout, g, start, len)
    ensures OnlySpanCreated(before, WithMember(layout, g, fill, start + l, slab), g, start, len)
  {
    MemberInSpan(Width(g), start, len, l);
  }

  lemma CopyOneMore<T(!new)>(before: Layout<T>, layout: Layout<T>, next: Layout<T>, g: Grid, fill: T, c: Child<T>, start: nat, l: nat)
    requires Valid(g) && Valid(c.grid) && |c.grid.shape| == |g.shape| && l < |c.ids|
    requires CopiedUpTo(before, layout, g, fill, c, start, l)
    requires next == WithMember(layout, g, fill, start + l, Slab(c, g.axis, fill, l))
    ensures CopiedUpTo(before, next, g, fill, c, start, l + 1)
  {
    forall idx: Index | |idx| == |g.shape|
      ensures CopiedAt(before, next, g, fill, c, start, l + 1, idx)
    {
      assert CopiedAt(before, layout, g, fill, c, start, l, idx);
      CopyOneMoreAt(before, layout, g, fill, c, start, l, idx);
    }
  }

  /** The first l members of the child were copied, and nothing else was created. */
  ghost predicate CopiedSoFar<T(!new)>(before: Layout<T>, layout: Layout<T>, g: Grid, fill: T, c: Child<T>, start: nat, l: nat)
    requires Valid(g) && Valid(c.grid) && |c.grid.shape| == |g.shape| && c.ids != []
  {
    CopiedUpTo(before, layout, g, fill, c, start, l) && OnlySpanCreated(before, layout, g, start, |c.ids|)
  }

  lemma CopyNext<T(!new)>(before: Layout<T>, layout: Layout<T>, next: Layout<T>, g: Grid, fill: T, c: Child<T>, start: nat, l: nat)
    requires Valid(g) && Valid(c.grid) && |c.grid.shape| == |g.shape| && l < |c.ids|
    requires CopiedSoFar(before, layout, g, fill, c, start, l)
    requires next == WithMember(layout, g, fill, start + l, Slab(c, g.axis, fill, l))
    ensures CopiedSoFar(before, next, g, fill, c, start, l + 1)
  {
    CopyOneMore(before, layout, next, g, fill, c, start, l);
    CopyCreates(before, layout, g, fill, Slab(c, g.axis, fill, l), start, |c.ids|, l);
  }

  // ---------------------------------------------------------------------------------------
  // All children

  /** Where every child starts in the destination. */
  predicate Placed<T>(g: Grid, children: seq<Child<T>>, rank: map<int, nat>, starts: seq<nat>) {
    && Valid(g)
    && |starts| == |children|
    && (forall i :: 0 <= i < |children| ==>
          && children[i].ids != []
          && Valid(children[i].grid) && children[i].grid.axis == g.axis && |children[i].grid.shape| == |g.shape|
          && Consecutive(children[i], rank, starts[i])
          && (forall key :: key in children[i].files ==> |key| == |g.shape|))
    && (forall i, j :: 0 <= i < |children| && 0 <= j < |children| && i != j ==>
          starts[i] + |children[i].ids| <= starts[j] || starts[j] + |children[j].ids| <= starts[i])
  }

  /** Linking is decided by the ensemble chunk size alone, whatever the chunk sizes of the other dimensions. */
  predicate Links<T>(g: Grid, c: Child<T>)
    requires Valid(g) && Valid(c.grid)
  {
    Width(c.grid) == Width(g)
  }

  /**
    Every linked child has the destination's chunk size in every dimension, begins on a chunk
    boundary and meets no chunk an earlier child wrote.
  */
  predicate SafeOrder<T>(g: Grid, children: seq<Child<T>>, rank: map<int, nat>, starts: seq<nat>)
    requires Placed(g, children, rank, starts)
  {
    forall j :: 0 <= j < |children| && Links(g, children[j]) ==>
      && children[j].grid == g
      && starts[j] % Width(g) == 0
      && forall i :: 0 <= i < j ==>
           !SpansMeet(Width(g), starts[i], |children[i].ids|, starts[j], |children[j].ids|)
  }

  /** One of the first n children has members in chunk q. */
  ghost predicate Touched<T>(g: Grid, children: seq<Child<T>>, rank: map<int, nat>, starts: seq<nat>, n: nat, q: nat)
    requires Placed(g, children, rank, starts) && n <= |children|
  {
    exists i :: 0 <= i < n && InSpan(Width(g), starts[i], |children[i].ids|, q)
  }

  /** What holds after the first n children were merged in a safe order. */
  ghost predicate MergedUpTo<T(!new)>(layout: Layout<T>, g: Grid, fill: T, children: seq<Child<T>>, rank: map<int, nat>,
                                      starts: seq<nat>, n: nat)
    requires Placed(g, children, rank, starts) && n <= |children|
  {
    && (forall i :: 0 <= i < n ==> ReadsBack(layout, g, fill, children[i], starts[i]))
    && (forall key :: layout(key).Some? ==> |key| == |g.shape| && Touched(g, children, rank, starts, n, key[g.axis]))
  }

  /** A linked child finds its destination chunks absent. */
  lemma LinkReadsBack<T(!new)>(layout: Layout<T>, next: Layout<T>, g: Grid, fill: T, children: seq<Child<T>>,
                               rank: map<int, nat>, starts: seq<nat>, j: nat, idx: Index)
    requires Placed(g, children, rank, starts) && SafeOrder(g, children, rank, starts)
    requires j < |children| && children[j].grid == g && |idx| == |g.shape| && idx[g.axis] < |children[j].ids|
    requires MergedUpTo(layout, g, fill, children, rank, starts, j)
    requires SameLayout(next, Linked(layout, g, children[j], starts[j]))
    ensures ReadsBackAt(next, g, fill, children[j], starts[j], idx)
  {
    var c, s := children[j], starts[j];
    MemberInSpan(Width(g), s, |c.ids|, idx[g.axis]);
    LinkedReadsChild(layout, g, c, s, fill, idx);
  }

  /** It leaves the members of earlier children alone. */
  lemma LinkKeepsReadsBack<T(!new)>(layout: Layout<T>, next: Layout<T>, g: Grid, fill: T, children: seq<Child<T>>,
                                    rank: map<int, nat>, starts: seq<nat>, j: nat, i: nat, idx: Index)
    requires Placed(g, children, rank, starts) && SafeOrder(g, children, rank, starts)
    requires i < j < |children| && children[j].grid == g && |idx| == |g.shape| && idx[g.axis] < |children[i].ids|
    requires ReadsBackAt(layout, g, fill, children[i], starts[i], idx)
    requires SameLayout(next, Linked(layout, g, children[j], starts[j]))
    ensures ReadsBackAt(next, g, fill, children[i], starts[i], idx)
  {
    MemberInSpan(Width(g), starts[i], |children[i].ids|, idx[g.axis]);
    LinkedKeepsOthers(layout, g, children[j], starts[j], fill, Moved(idx, g.axis, starts[i] + idx[g.axis]));
  }

  lemma LinkTouches<T(!new)>(layout: Layout<T>, g: Grid, children: seq<Child<T>>, rank: map<int, nat>,
                             starts: seq<nat>, j: nat, key: Key)
    requires Placed(g, children, rank, starts) && j < |children|
    requires layout(key).Some? ==> |key| == |g.shape| && Touched(g, children, rank, starts, j, key[g.axis])
    requires Linked(layout, g, children[j], starts[j])(key).Some?
    ensures |key| == |g.shape| && Touched(g, children, rank, starts, j + 1, key[g.axis])
  {
    if Covers(g, starts[j], |children[j].ids|, key) {
      CoveredInSpan(g, starts[j], |children[j].ids|, key);
    }
  }

  lemma LinkKeepsMerged<T(!new)>(layout: Layout<T>, next: Layout<T>, g: Grid, fill: T, children: seq<Child<T>>,
                                 rank: map<int, nat>, starts: seq<nat>, j: nat)
    requires Placed(g, children, rank, starts) && SafeOrder(g, children, rank, starts)
    requires j < |children| && children[j].grid == g
    requires MergedUpTo(layout, g, fill, children, rank, starts, j)
    requires SameLayout(next, Linked(layout, g, children[j], starts[j]))
    ensures MergedUpTo(next, g, fill, children, rank, starts, j + 1)
  {
    forall idx: Index | |idx| == |g.shape| && idx[g.axis] < |children[j].ids|
      ensures ReadsBackAt(next, g, fill, children[j], starts[j], idx)
    {
      LinkReadsBack(layout, next, g, fill, children, rank, starts, j, idx);
    }
    forall i, idx: Index | 0 <= i < j && |idx| == |g.shape| && idx[g.axis] < |children[i].ids|
      ensures ReadsBackAt(next, g, fill, children[i], starts[i], idx)
    {
      LinkKeepsReadsBack(layout, next, g, fill, children, rank, starts, j, i, idx);
    }
    forall key | next(key).Some?
      ensures |key| == |g.shape| && Touched(g, children, rank, starts, j + 1, key[g.axis])
    {
      LinkTouches(layout, g, children, rank, starts, j, key);
    }
  }

  /** A copied child changes no member but its own. */
  lemma CopyReadsBack<T(!new)>(layout: Layout<T>, next: Layout<T>, g: Grid, fill: T, children: seq<Child<T>>,
                               rank: map<int, nat>, starts: seq<nat>, j: nat, i: nat, idx: Index)
    requires Placed(g, children, rank, starts) && i <= j < |children| && |idx| == |g.shape|
    requires idx[g.axis] < |children[i].ids|
    requires i < j ==> ReadsBackAt(layout, g, fill, children[i], starts[i], idx)
    requires CopiedUpTo(layout, next, g, fill, children[j], starts[j], |children[j].ids|)
    ensures ReadsBackAt(next, g, fill, children[i], starts[i], idx)
  {
    var at := Moved(idx, g.axis, starts[i] + idx[g.axis]);
    assert CopiedAt(layout, next, g, fill, children[j], starts[j], |children[j].ids|, at);
    if i == j {
      assert Moved(at, g.axis, idx[g.axis]) == idx;
    }
  }

  lemma CopyKeepsMerged<T(!new)>(layout: Layout<T>, next: Layout<T>, g: Grid, fill: T, children: seq<Child<T>>,
                                 rank: map<int, nat>, starts: seq<nat>, j: nat)
    requires Placed(g, children, rank, starts) && j < |children|
    requires MergedUpTo(layout, g, fill, children, rank, starts, j)
    requires CopiedUpTo(layout, next, g, fill, children[j], starts[j], |children[j].ids|)
    requires OnlySpanCreated(layout, next, g, starts[j], |children[j].ids|)
    ensures MergedUpTo(next, g, fill, children, rank, starts, j + 1)
  {
    forall i, idx: Index | 0 <= i <= j && |idx| == |g.shape| && idx[g.axis] < |children[i].ids|
      ensures ReadsBackAt(next, g, fill, children[i], starts[i], idx)
    {
      CopyReadsBack(layout, next, g, fill, children, rank, starts, j, i, idx);
    }
  }

  /** What merging one child does: link its files when the ensemble chunk sizes agree, copy its members otherwise. */
  ghost predicate MergeStep<T(!new)>(before: Layout<T>, after: Layout<T>, g: Grid, fill: T, c: Child<T>, start: nat) {
    && Valid(g) && Valid(c.grid) && |c.grid.shape| == |g.shape| && c.ids != []
    && if Links(g, c) then SameLayout(after, Linked(before, g, c, start))
       else CopiedUpTo(before, after, g, fill, c, start, |c.ids|) && OnlySpanCreated(before, after, g, start, |c.ids|)
  }

  /** The destination after each child, from an empty one. */
  ghost predicate IsMerge<T(!new)>(trace: seq<Layout<T>>, g: Grid, fill: T, children: seq<Child<T>>,
                                   rank: map<int, nat>, starts: seq<nat>)
    requires Placed(g, children, rank, starts)
  {
    && |trace| == |children| + 1
    && SameLayout(trace[0], key => None)
    && forall i :: 0 <= i < |children| ==> MergeStep(trace[i], trace[i + 1], g, fill, children[i], starts[i])
  }

  lemma StepKeepsMerged<T(!new)>(layout: Layout<T>, next: Layout<T>, g: Grid, fill: T, children: seq<Child<T>>,
                                 rank: map<int, nat>, starts: seq<nat>, j: nat)
    requires Placed(g, children, rank, starts) && SafeOrder(g, children, rank, starts) && j < |children|
    requires MergedUpTo(layout, g, fill, children, rank, starts, j)
    requires MergeStep(layout, next, g, fill, children[j], starts[j])
    ensures MergedUpTo(next, g, fill, children, rank, starts, j + 1)
  {
    if Links(g, children[j]) {
      LinkKeepsMerged(layout, next, g, fill, children, rank, starts, j);
    } else {
      CopyKeepsMerged(layout, next, g, fill, children, rank, starts, j);
    }
  }

  lemma NothingMerged<T(!new)>(layout: Layout<T>, g: Grid, fill: T, children: seq<Child<T>>, rank: map<int, nat>, starts: seq<nat>)
    requires Placed(g, children, rank, starts) && SameLayout(layout, key => None)
    ensures MergedUpTo(layout, g, fill, children, rank, starts, 0)
  {
  }

  lemma {:induction false} SafeMerge<T(!new)>(trace: seq<Layout<T>>, g: Grid, fill: T, children: seq<Child<T>>,
                                              rank: map<int, nat>, starts: seq<nat>, n: nat)
    requires Placed(g, children, rank, starts) && SafeOrder(g, children, rank, starts)
    requires IsMerge(trace, g, fill, children, rank, starts) && n <= |children|
    ensures MergedUpTo(trace[n], g, fill, children, rank, starts, n)
    decreases n
  {
    if n == 0 {
      NothingMerged(trace[0], g, fill, children, rank, starts);
    } else {
      var j := n - 1;
      SafeMerge(trace, g, fill, children, rank, starts, j);
      assert MergeStep(trace[j], trace[j + 1], g, fill, children[j], starts[j]);
      StepKeepsMerged(trace[j], trace[j + 1], g, fill, children, rank, starts, j);
    }
  }

  class Destination<T(!new)> {
    const grid: Grid
    const fill: T
    var chunks: Layout<T>

    constructor (grid: Grid, fill: T)
      ensures this.grid == grid && this.fill == fill && chunks == (key => None)
    {
      this.grid := grid;
      this.fill := fill;
      chunks := key => None;
    }

    /** The renaming loop of _merge_v3_array_chunks; the files are found in no particular order. */
    method LinkChild(c: Child<T>, rank: map<int, nat>, ghost start: nat)
      requires Valid(grid) && Consecutive(c, rank, start)
      requires forall key :: key in c.files ==> |key| == |grid.shape|
      modifies this`chunks
      ensures SameLayout(chunks, Linked(old(chunks), grid, c, start))
    {
      var todo := c.files.Keys;
      ghost var linked: set<Key> := {};
      while todo != {}
        invariant linked + todo == c.files.Keys
        invariant SameLayout(chunks, LinkedSome(old(chunks), grid, c, start, linked))
        decreases todo
      {
        var k :| k in todo;
        LinkOneMore(old(chunks), chunks, grid, c, rank, start, linked, k);
        chunks := AfterFile(chunks, grid, c, rank, k);
        todo, linked := todo - {k}, linked + {k};
      }
      assert linked == c.files.Keys;
    }

    /** _copy_array_region: each member's slab is written at its destination index. */
    method CopyChild(c: Child<T>, rank: map<int, nat>, ghost start: nat)
      requires Valid(grid) && Valid(c.grid) && c.grid.axis == grid.axis && |c.grid.shape| == |grid.shape|
      requires Consecutive(c, rank, start) && c.ids != []
      modifies this`chunks
      ensures CopiedUpTo(old(chunks), chunks, grid, fill, c, start, |c.ids|)
      ensures OnlySpanCreated(old(chunks), chunks, grid, start, |c.ids|)
    {
      for l := 0 to |c.ids|
        invariant CopiedSoFar(old(chunks), chunks, grid, fill, c, start, l)
      {
        ghost var before := chunks;
        var member := rank[c.ids[l]];
        assert member == start + l;
        chunks := WithMember(chunks, grid, fill, member, Slab(c, grid.axis, fill, l));
        CopyNext(old(chunks), before, chunks, grid, fill, c, start, l);
      }
    }

    /**
      _merge_child_data_chunks for one data array. Each child is linked or copied in turn; in a safe
      order every member of every child then reads back from its own destination index, at every
      position of the other dimensions.
    */
    method MergeChildren(children: seq<Child<T>>, rank: map<int, nat>, ghost starts: seq<nat>)
      returns (ghost trace: seq<Layout<T>>)
      requires Placed(grid, children, rank, starts)
      requires forall key :: chunks(key) == None
      modifies this`chunks
      ensures IsMerge(trace, grid, fill, children, rank, starts) && trace[|children|] == chunks
      ensures SafeOrder(grid, children, rank, starts) ==>
                forall i :: 0 <= i < |children| ==> ReadsBack(chunks, grid, fill, children[i], starts[i])
    {
      trace := [chunks];
      for j := 0 to |children|
        invariant |trace| == j + 1 && trace[j] == chunks && SameLayout(trace[0], key => None)
        invariant forall i :: 0 <= i < j ==> MergeStep(trace[i], trace[i + 1], grid, fill, children[i], starts[i])
      {
        ghost var before := chunks;
        if !Links(grid, children[j]) {
          CopyChild(children[j], rank, starts[j]);
        } else {
          LinkChild(children[j], rank, starts[j]);
        }
        trace := trace + [chunks];
      }
      if SafeOrder(grid, children, rank, starts) {
        SafeMerge(trace, grid, fill, children, rank, starts, |children|);
      }
    }
  }
}
