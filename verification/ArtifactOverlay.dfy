/**
  _merge_artifact_lists (scripts/plugin_direct_runner.py): artifacts of the execute phase, overlaid
  by those of the postprocess phase.
*/
module ArtifactOverlay {

  datatype Option<+T> = None | Some(value: T)

  datatype Key = Key(path: string, name: string)

  /** An artifact: any JSON value that is not an object, or an object with two paths, a name and other content. */
  datatype Artifact =
    | Other(value: nat)
    | Object(storagePath: string, path: string, name: string, rest: nat)

  /** What an artifact is matched by: its key, or itself when the key is empty. */
  datatype Slot = ByKey(key: Key) | Itself(artifact: Artifact)

  function SlotOf(a: Artifact): Slot {
    if a.Other? then Itself(a)
    else
      var path := if a.storagePath != "" then a.storagePath else a.path;
      if path == "" && a.name == "" then Itself(a) else ByKey(Key(path, a.name))
  }

  /** The artifact is an object that lies at p: its storage path, or its path when it has none. */
  predicate LiesAt(a: Artifact, p: string) {
    a.Object? && if a.storagePath == "" then a.path == p else a.storagePath == p
  }

  /** Two artifacts are matched exactly when they are equal, or are objects that lie at one place under one name, not both empty. */
  lemma MatchedIff(a: Artifact, b: Artifact)
    ensures SlotOf(a) == SlotOf(b) <==>
            a == b || exists p :: LiesAt(a, p) && LiesAt(b, p) && a.name == b.name && (p != "" || a.name != "")
  {
    if a.Object? && b.Object? && SlotOf(a).ByKey? && SlotOf(a) == SlotOf(b) {
      assert LiesAt(a, SlotOf(a).key.path) && LiesAt(b, SlotOf(a).key.path);
    }
  }

  // ---------------------------------------------------------------------------------------
  // First-occurrence order, last value

  /** The slots in the order of their first occurrence. */
  function Order(items: seq<Artifact>): seq<Slot> {
    if |items| == 0 then []
    else
      var before, slot := Order(items[..|items| - 1]), SlotOf(items[|items| - 1]);
      if slot in before then before else before + [slot]
  }

  /** The last artifact of a slot. */
  function Last(items: seq<Artifact>, slot: Slot): Option<Artifact> {
    if |items| == 0 then None
    else if SlotOf(items[|items| - 1]) == slot then Some(items[|items| - 1])
    else Last(items[..|items| - 1], slot)
  }

  lemma {:induction false} LastExists(items: seq<Artifact>, slot: Slot)
    ensures slot in Order(items) <==> Last(items, slot).Some?
    ensures Last(items, slot).Some? ==> SlotOf(Last(items, slot).value) == slot && Last(items, slot).value in items
  {
    if |items| > 0 { LastExists(items[..|items| - 1], slot); }
  }

  /** The merged list. */
  ghost function Overlay(items: seq<Artifact>): seq<Artifact> {
    seq(|Order(items)|, i requires 0 <= i < |Order(items)| => (LastExists(items, Order(items)[i]); Last(items, Order(items)[i]).value))
  }

  lemma OverlayAt(items: seq<Artifact>, i: nat)
    requires i < |Order(items)|
    ensures |Overlay(items)| == |Order(items)| && Last(items, Order(items)[i]) == Some(Overlay(items)[i])
    ensures SlotOf(Overlay(items)[i]) == Order(items)[i]
  {
    LastExists(items, Order(items)[i]);
  }

  // ---------------------------------------------------------------------------------------
  // Order

  lemma {:induction false} OrderDistinct(items: seq<Artifact>)
    ensures forall i, j :: 0 <= i < j < |Order(items)| ==> Order(items)[i] != Order(items)[j]
  {
    if |items| > 0 { OrderDistinct(items[..|items| - 1]); }
  }

  lemma OrderSnoc(items: seq<Artifact>, a: Artifact)
    ensures Order(items + [a]) == if SlotOf(a) in Order(items) then Order(items) else Order(items) + [SlotOf(a)]
  {
    assert (items + [a])[..|items|] == items;
  }

  lemma LastSnoc(items: seq<Artifact>, a: Artifact, slot: Slot)
    ensures Last(items + [a], slot) == if SlotOf(a) == slot then Some(a) else Last(items, slot)
  {
    assert (items + [a])[..|items|] == items;
  }

  lemma {:induction false} OrderMonotone(x: seq<Artifact>, y: seq<Artifact>, slot: Slot)
    ensures slot in Order(x + y) <==> slot in Order(x) || slot in Order(y)
  {
    if |y| == 0 {
      assert x + y == x;
    } else {
      var y', a := y[..|y| - 1], y[|y| - 1];
      assert y == y' + [a] && x + y == (x + y') + [a];
      OrderMonotone(x, y', slot);
      OrderSnoc(x + y', a);
      OrderSnoc(y', a);
      OrderMonotone(x, y', SlotOf(a));
    }
  }

  lemma {:induction false} LastConcat(x: seq<Artifact>, y: seq<Artifact>, slot: Slot)
    ensures Last(x + y, slot) == if Last(y, slot).Some? then Last(y, slot) else Last(x, slot)
  {
    if |y| == 0 {
      assert x + y == x;
    } else {
      var y', a := y[..|y| - 1], y[|y| - 1];
      assert y == y' + [a] && x + y == (x + y') + [a];
      LastConcat(x, y', slot);
      LastSnoc(x + y', a, slot);
      LastSnoc(y', a, slot);
    }
  }

  /** The order of x + y depends on x only through its own order. */
  lemma {:induction false} OrderLeft(x: seq<Artifact>, x': seq<Artifact>, y: seq<Artifact>)
    requires Order(x) == Order(x')
    ensures Order(x + y) == Order(x' + y)
  {
    if |y| == 0 {
      assert x + y == x && x' + y == x';
    } else {
      var y', a := y[..|y| - 1], y[|y| - 1];
      assert x + y == (x + y') + [a] && x' + y == (x' + y') + [a];
      OrderLeft(x, x', y');
      OrderSnoc(x + y', a);
      OrderSnoc(x' + y', a);
    }
  }

  /** A list of artifacts with the given slots has that order. */
  lemma {:induction false} OrderOfDistinct(items: seq<Artifact>, slots: seq<Slot>)
    requires |items| == |slots| && forall i :: 0 <= i < |items| ==> SlotOf(items[i]) == slots[i]
    requires forall i, j :: 0 <= i < j < |slots| ==> slots[i] != slots[j]
    ensures Order(items) == slots
  {
    if |items| > 0 {
      OrderOfDistinct(items[..|items| - 1], slots[..|slots| - 1]);
      assert slots[..|slots| - 1] + [slots[|slots| - 1]] == slots;
    }
  }

  lemma OverlayOrder(items: seq<Artifact>)
    ensures Order(Overlay(items)) == Order(items)
  {
    forall i | 0 <= i < |Order(items)| ensures |Overlay(items)| == |Order(items)| && SlotOf(Overlay(items)[i]) == Order(items)[i] {
      OverlayAt(items, i);
    }
    OrderDistinct(items);
    OrderOfDistinct(Overlay(items), Order(items));
  }

  lemma {:induction false} LastOfDistinct(items: seq<Artifact>, i: nat)
    requires i < |items|
    requires forall j :: i < j < |items| ==> SlotOf(items[j]) != SlotOf(items[i])
    ensures Last(items, SlotOf(items[i])) == Some(items[i])
  {
    if i < |items| - 1 { LastOfDistinct(items[..|items| - 1], i); }
  }

  lemma OverlayLast(items: seq<Artifact>, slot: Slot)
    ensures Last(Overlay(items), slot) == Last(items, slot)
  {
    OverlayOrder(items);
    LastExists(items, slot);
    LastExists(Overlay(items), slot);
    if slot in Order(items) {
      var i :| 0 <= i < |Order(items)| && Order(items)[i] == slot;
      OverlayAt(items, i);
      forall j | i < j < |Overlay(items)| ensures SlotOf(Overlay(items)[j]) != slot {
        OverlayAt(items, j);
        OrderDistinct(items);
      }
      LastOfDistinct(Overlay(items), i);
    }
  }

  /** Lists of equal order and equal last values have equal overlays. */
  lemma OverlayExtensional(x: seq<Artifact>, y: seq<Artifact>)
    requires Order(x) == Order(y) && forall slot :: Last(x, slot) == Last(y, slot)
    ensures Overlay(x) == Overlay(y)
  {
    forall i | 0 <= i < |Order(x)| ensures |Overlay(x)| == |Overlay(y)| == |Order(x)| && Overlay(x)[i] == Overlay(y)[i] {
      OverlayAt(x, i);
      OverlayAt(y, i);
    }
  }

  lemma OverlayLeft(x: seq<Artifact>, y: seq<Artifact>)
    ensures Overlay(Overlay(x) + y) == Overlay(x + y)
  {
    OverlayOrder(x);
    OrderLeft(Overlay(x), x, y);
    forall slot ensures Last(Overlay(x) + y, slot) == Last(x + y, slot) {
      LastConcat(Overlay(x), y, slot);
      LastConcat(x, y, slot);
      OverlayLast(x, slot);
    }
    OverlayExtensional(Overlay(x) + y, x + y);
  }

  /** The order of x + y is that of x followed by the slots of y's order that are new. */
  lemma {:induction false} OrderRight(x: seq<Artifact>, y: seq<Artifact>)
    ensures Order(x + Overlay(y)) == Order(x + y)
  {
    if |y| == 0 {
      assert Overlay(y) == y;
    } else {
      var y', a := y[..|y| - 1], y[|y| - 1];
      assert y == y' + [a] && x + y == (x + y') + [a];
      OrderRight(x, y');
      OrderSnoc(x + y', a);
      OrderSnoc(y', a);
      OrderMonotone(x, y', SlotOf(a));
      if SlotOf(a) in Order(y') {
        SameSlots(x, Overlay(y), Overlay(y'), y, y');
      } else {
        NewSlot(x, y', a);
      }
    }
  }

  lemma {:induction false} SlotwiseOrder(x: seq<Artifact>, p: seq<Artifact>, q: seq<Artifact>)
    requires |p| == |q| && forall i :: 0 <= i < |p| ==> SlotOf(p[i]) == SlotOf(q[i])
    ensures Order(x + p) == Order(x + q)
  {
    if |p| == 0 {
      assert x + p == x + q;
    } else {
      var p', q' := p[..|p| - 1], q[..|q| - 1];
      assert x + p == (x + p') + [p[|p| - 1]] && x + q == (x + q') + [q[|q| - 1]];
      SlotwiseOrder(x, p', q');
      OrderSnoc(x + p', p[|p| - 1]);
      OrderSnoc(x + q', q[|q| - 1]);
    }
  }

  lemma OverlaySlots(items: seq<Artifact>)
    ensures |Overlay(items)| == |Order(items)|
    ensures forall i :: 0 <= i < |Order(items)| ==> SlotOf(Overlay(items)[i]) == Order(items)[i]
  {
    forall i | 0 <= i < |Order(items)| ensures SlotOf(Overlay(items)[i]) == Order(items)[i] {
      OverlayAt(items, i);
    }
  }

  lemma SameSlots(x: seq<Artifact>, p: seq<Artifact>, q: seq<Artifact>, y: seq<Artifact>, y': seq<Artifact>)
    requires p == Overlay(y) && q == Overlay(y') && Order(y) == Order(y')
    ensures Order(x + p) == Order(x + q)
  {
    OverlaySlots(y);
    OverlaySlots(y');
    SlotwiseOrder(x, p, q);
  }

  lemma NewSlot(x: seq<Artifact>, y: seq<Artifact>, a: Artifact)
    requires SlotOf(a) !in Order(y)
    ensures Order(x + Overlay(y + [a])) == Order((x + Overlay(y)) + [a])
  {
    OrderSnoc(y, a);
    OverlaySlots(y);
    OverlaySlots(y + [a]);
    SlotwiseOrder(x, Overlay(y + [a]), Overlay(y) + [a]);
    assert x + (Overlay(y) + [a]) == (x + Overlay(y)) + [a];
  }

  lemma OverlayRight(x: seq<Artifact>, y: seq<Artifact>)
    ensures Overlay(x + Overlay(y)) == Overlay(x + y)
  {
    OrderRight(x, y);
    forall slot ensures Last(x + Overlay(y), slot) == Last(x + y, slot) {
      LastConcat(x, Overlay(y), slot);
      LastConcat(x, y, slot);
      OverlayLast(y, slot);
    }
    OverlayExtensional(x + Overlay(y), x + y);
  }

  // ---------------------------------------------------------------------------------------
  // The algebra of merging

  /** A merge argument that is not a list counts as empty. */
  function Items(list: Option<seq<Artifact>>): seq<Artifact> {
    if list.Some? then list.value else []
  }

  ghost function Merged(prior: seq<Artifact>, current: seq<Artifact>): seq<Artifact> {
    Overlay(prior + current)
  }

  lemma MergeIsAssociative(x: seq<Artifact>, y: seq<Artifact>, z: seq<Artifact>)
    ensures Merged(Merged(x, y), z) == Merged(x, Merged(y, z))
  {
    OverlayLeft(x + y, z);
    OverlayRight(x, y + z);
    assert x + y + z == x + (y + z);
  }

  /** Overlaying the same artifacts again, or a merge over itself, changes nothing. */
  lemma MergeIsIdempotent(x: seq<Artifact>, y: seq<Artifact>)
    ensures Merged(Merged(x, y), y) == Merged(x, y)
    ensures Merged(Merged(x, y), Merged(x, y)) == Merged(x, y)
  {
    OverlayLeft(x + y, y);
    Absorbs(x, y);
    assert x + (y + y) == x + y + y;
    var m := x + y;
    OverlayLeft(m, Overlay(m));
    OverlayRight(m, m);
    Absorbs([], m);
    assert [] + m == m && [] + (m + m) == m + m;
  }

  lemma Absorbs(x: seq<Artifact>, y: seq<Artifact>)
    ensures Overlay(x + (y + y)) == Overlay(x + y)
  {
    OrderAbsorbs(x + y, y, y);
    assert x + y + y == x + (y + y);
    forall slot ensures Last(x + (y + y), slot) == Last(x + y, slot) {
      LastConcat(x, y + y, slot);
      LastConcat(y, y, slot);
      LastConcat(x, y, slot);
    }
    OverlayExtensional(x + (y + y), x + y);
  }

  /** Appending artifacts whose slots are all present leaves the order alone. */
  lemma {:induction false} OrderAbsorbs(m: seq<Artifact>, y: seq<Artifact>, whole: seq<Artifact>)
    requires y <= whole && exists x :: m == x + whole
    ensures Order(m + y) == Order(m)
  {
    if |y| == 0 {
      assert m + y == m;
    } else {
      var y', a := y[..|y| - 1], y[|y| - 1];
      OrderAbsorbs(m, y', whole);
      assert m + y == (m + y') + [a];
      OrderSnoc(m + y', a);
      var x :| m == x + whole;
      OrderMonotone(x, whole, SlotOf(a));
      InOrder(whole, a);
    }
  }

  lemma {:induction false} InOrder(items: seq<Artifact>, a: Artifact)
    requires a in items
    ensures SlotOf(a) in Order(items)
  {
    if a != items[|items| - 1] { InOrder(items[..|items| - 1], a); }
  }

  /** No two entries of a merge share a slot; in particular no two have the same non-empty key. */
  lemma MergeHasDistinctSlots(items: seq<Artifact>, i: nat, j: nat)
    requires i < j < |Overlay(items)|
    ensures SlotOf(Overlay(items)[i]) != SlotOf(Overlay(items)[j])
  {
    OverlayAt(items, i);
    OverlayAt(items, j);
    OrderDistinct(items);
  }

  /** Every artifact is represented, and the postprocess artifact wins over an execute artifact of the same slot. */
  lemma MergeRepresents(prior: seq<Artifact>, current: seq<Artifact>, a: Artifact) returns (i: nat)
    requires a in prior || a in current
    ensures i < |Merged(prior, current)| && SlotOf(Merged(prior, current)[i]) == SlotOf(a)
    ensures Some(Merged(prior, current)[i]) ==
              if Last(current, SlotOf(a)).Some? then Last(current, SlotOf(a)) else Last(prior, SlotOf(a))
  {
    var items, slot := prior + current, SlotOf(a);
    InOrder(items, a);
    i :| 0 <= i < |Order(items)| && Order(items)[i] == slot;
    OverlayAt(items, i);
    LastConcat(prior, current, slot);
  }

  // ---------------------------------------------------------------------------------------
  // The loop with its position index

  lemma SnocKnown(items: seq<Artifact>, a: Artifact, i: nat)
    requires i < |Order(items)| && Order(items)[i] == SlotOf(a)
    ensures |Overlay(items)| == |Order(items)|
    ensures Overlay(items + [a]) == Overlay(items)[i := a]
  {
    OrderSnoc(items, a);
    OrderDistinct(items);
    forall j | 0 <= j < |Order(items)| ensures Overlay(items + [a])[j] == Overlay(items)[i := a][j] {
      OverlayAt(items, j);
      OverlayAt(items + [a], j);
      LastSnoc(items, a, Order(items)[j]);
    }
  }

  lemma SnocNew(items: seq<Artifact>, a: Artifact)
    requires SlotOf(a) !in Order(items)
    ensures Overlay(items + [a]) == Overlay(items) + [a]
  {
    OrderSnoc(items, a);
    forall j | 0 <= j < |Order(items)| + 1 ensures Overlay(items + [a])[j] == (Overlay(items) + [a])[j] {
      OverlayAt(items + [a], j);
      LastSnoc(items, a, Order(items + [a])[j]);
      if j < |Order(items)| {
        OverlayAt(items, j);
        assert Order(items)[j] != SlotOf(a);
      }
    }
  }

  /** positions records where the entry of each key is. */
  ghost predicate Positions(positions: map<Key, nat>, order: seq<Slot>) {
    && (forall k :: k in positions ==> positions[k] < |order| && order[positions[k]] == ByKey(k))
    && (forall j :: 0 <= j < |order| && order[j].ByKey? ==> order[j].key in positions)
  }

  lemma PositionsSnoc(positions: map<Key, nat>, order: seq<Slot>, key: Key)
    requires Positions(positions, order) && key !in positions
    ensures ByKey(key) !in order
    ensures Positions(positions[key := |order|], order + [ByKey(key)])
  {
  }

  lemma InOverlay(items: seq<Artifact>, a: Artifact)
    requires SlotOf(a) == Itself(a)
    ensures a in Overlay(items) <==> SlotOf(a) in Order(items)
  {
    if a in Overlay(items) {
      var i :| 0 <= i < |Overlay(items)| && Overlay(items)[i] == a;
      OverlayAt(items, i);
    }
    if SlotOf(a) in Order(items) {
      var i :| 0 <= i < |Order(items)| && Order(items)[i] == SlotOf(a);
      OverlayAt(items, i);
      SelfSlot(Overlay(items)[i]);
    }
  }

  lemma SelfSlot(b: Artifact)
    ensures SlotOf(b).Itself? ==> SlotOf(b).artifact == b
  {
  }

  /** One turn of the loop. */
  method PlaceArtifact(merged: seq<Artifact>, positions: map<Key, nat>, a: Artifact, ghost seen: seq<Artifact>)
    returns (merged': seq<Artifact>, positions': map<Key, nat>)
    requires merged == Overlay(seen) && Positions(positions, Order(seen))
    ensures merged' == Overlay(seen + [a]) && Positions(positions', Order(seen + [a]))
  {
    var slot := SlotOf(a);
    OverlaySlots(seen);
    OrderSnoc(seen, a);
    merged', positions' := merged, positions;
    if slot.Itself? {
      SelfSlot(a);
      InOverlay(seen, a);
      if a !in merged {
        SnocNew(seen, a);
        merged' := merged + [a];
      } else {
        Unchanged(seen, a);
      }
    } else if slot.key in positions {
      SnocKnown(seen, a, positions[slot.key]);
      merged' := merged[positions[slot.key] := a];
    } else {
      PositionsSnoc(positions, Order(seen), slot.key);
      SnocNew(seen, a);
      positions' := positions[slot.key := |merged|];
      merged' := merged + [a];
    }
  }

  method MergeArtifactLists(prior: Option<seq<Artifact>>, current: Option<seq<Artifact>>) returns (merged: seq<Artifact>)
    ensures prior.Some? && current.Some? ==> merged == Merged(prior.value, current.value)
    ensures prior.Some? && current.None? ==> merged == Merged(prior.value, [])
    ensures prior.None? && current.Some? ==> merged == Merged([], current.value)
    ensures prior.None? && current.None? ==> merged == []
  {
    var all := Items(prior) + Items(current);
    var positions: map<Key, nat> := map[];
    merged := [];
    for i := 0 to |all|
      invariant merged == Overlay(all[..i])
      invariant Positions(positions, Order(all[..i]))
    {
      assert all[..i] + [all[i]] == all[..i + 1];
      merged, positions := PlaceArtifact(merged, positions, all[i], all[..i]);
    }
    assert all[..|all|] == all;
  }

  lemma Unchanged(items: seq<Artifact>, a: Artifact)
    requires SlotOf(a) == Itself(a) && SlotOf(a) in Order(items)
    ensures Overlay(items + [a]) == Overlay(items)
  {
    var i :| 0 <= i < |Order(items)| && Order(items)[i] == SlotOf(a);
    OverlayAt(items, i);
    SelfSlot(Overlay(items)[i]);
    SnocKnown(items, a, i);
  }
}
