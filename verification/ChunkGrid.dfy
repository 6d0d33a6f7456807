/**
  The regular chunk grid of the Zarr core specification, version 3: element `idx` of an array lives
  in the chunk whose key is `idx` divided by the chunk shape, at the offset that is the remainder.
  A chunk that has no file reads as the fill value.
*/
module ChunkGrid {

  /** Chunk shape of an array, and the position of its ensemble dimension. */
  datatype Grid = Grid(axis: nat, shape: seq<nat>)

  type Index = seq<nat>
  type Key = seq<nat>

  /** The contents of one chunk file, by offset. */
  type Chunk<!T> = seq<nat> -> T

  /** The chunk files of an array directory. */
  type Layout<!T> = Key -> Option<Chunk<T>>

  datatype Option<+T> = None | Some(value: T)

  predicate Valid(g: Grid) {
    g.axis < |g.shape| && forall d :: 0 <= d < |g.shape| ==> g.shape[d] > 0
  }

  /** Members per chunk. */
  function Width(g: Grid): (w: nat)
    requires Valid(g)
    ensures w > 0
  {
    g.shape[g.axis]
  }

  function KeyOf(g: Grid, idx: Index): (k: Key)
    requires Valid(g) && |idx| == |g.shape|
    ensures |k| == |g.shape|
  {
    seq(|g.shape|, d requires 0 <= d < |g.shape| => idx[d] / g.shape[d])
  }

  function OffsetOf(g: Grid, idx: Index): (o: seq<nat>)
    requires Valid(g) && |idx| == |g.shape|
    ensures |o| == |g.shape|
  {
    seq(|g.shape|, d requires 0 <= d < |g.shape| => idx[d] % g.shape[d])
  }

  /** The same element of member number e. */
  function Moved(idx: Index, axis: nat, e: nat): (r: Index)
    requires axis < |idx|
    ensures |r| == |idx| && r[axis] == e
  {
    idx[axis := e]
  }

  function ReadAt<T>(layout: Layout<T>, g: Grid, fill: T, idx: Index): T
    requires Valid(g) && |idx| == |g.shape|
  {
    match layout(KeyOf(g, idx))
    case None => fill
    case Some(chunk) => chunk(OffsetOf(g, idx))
  }

  /** The element at an offset of a chunk. */
  function ElementOf(g: Grid, key: Key, off: seq<nat>): (idx: Index)
    requires |key| == |off| == |g.shape|
    ensures |idx| == |g.shape|
  {
    seq(|g.shape|, d requires 0 <= d < |g.shape| => key[d] * g.shape[d] + off[d])
  }

  lemma MultipleIsFar(k: int, w: int)
    requires w > 0
    ensures k >= 1 ==> k * w >= w
    ensures k <= -1 ==> k * w <= -w
  {
  }

  lemma DivModUnique(q: nat, r: nat, w: nat)
    requires r < w
    ensures (q * w + r) / w == q && (q * w + r) % w == r
  {
    var x := q * w + r;
    var k := x / w - q;
    assert x == (x / w) * w + x % w;
    assert k * w == (x / w) * w - q * w;
    MultipleIsFar(k, w);
  }

  /** Adding a multiple of the width moves the key and keeps the offset. */
  lemma AlignedShift(s: nat, l: nat, w: nat)
    requires w > 0 && s % w == 0
    ensures (s + l) / w == s / w + l / w
    ensures (s + l) % w == l % w
  {
    assert s == (s / w) * w;
    assert l == (l / w) * w + l % w;
    assert s + l == (s / w + l / w) * w + l % w;
    DivModUnique(s / w + l / w, l % w, w);
  }

  lemma ElementRoundTrip(g: Grid, idx: Index)
    requires Valid(g) && |idx| == |g.shape|
    ensures ElementOf(g, KeyOf(g, idx), OffsetOf(g, idx)) == idx
  {
    forall d | 0 <= d < |idx| ensures ElementOf(g, KeyOf(g, idx), OffsetOf(g, idx))[d] == idx[d] {
      assert idx[d] == (idx[d] / g.shape[d]) * g.shape[d] + idx[d] % g.shape[d];
    }
  }

  /** Moving an element along the ensemble axis by a whole number of chunks. */
  lemma ShiftedElement(g: Grid, idx: Index, s: nat)
    requires Valid(g) && |idx| == |g.shape| && s % Width(g) == 0
    ensures var moved := Moved(idx, g.axis, s + idx[g.axis]);
            && KeyOf(g, moved) == KeyOf(g, idx)[g.axis := s / Width(g) + idx[g.axis] / Width(g)]
            && OffsetOf(g, moved) == OffsetOf(g, idx)
  {
    AlignedShift(s, idx[g.axis], Width(g));
  }
}
