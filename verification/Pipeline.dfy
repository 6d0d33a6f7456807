/**
  Plugin pipelines of the direct runner (scripts/plugin_direct_runner.py): the raw stage objects,
  what the runner demands of them, and the chains of successors through them.
*/
module Pipeline {

  datatype Option<+T> = None | Some(value: T)

  datatype StageId = StageId(text: string)

  datatype Phase = Prepare | Prefetch | Schedule | Execute | Postprocess | Results | OtherPhase(name: string)

  datatype Handler = PluginPhase | PrefetchHandler | ScheduleHandler | PersistResults | OtherHandler(name: string)

  /** The value under a key of a stage object. */
  datatype Entry = Absent | NotText | Text(s: string)

  datatype RawStage = NotObject | Object(id: Entry, phase: Phase, handler: Handler, next: Entry)

  datatype Stage = Stage(id: StageId, phase: Phase, next: Option<StageId>)

  datatype Fault =
    | NotAnObject
    | EmptyId
    | DuplicateId
    | Unsupported
    | ResultsNotTerminal
    | NoNext
    | UnknownNext
    | Cycle

  // ---------------------------------------------------------------------------------------
  // Stages

  predicate IsSpace(c: char) {
    c in {' ', '\t', '\n', '\r'}
  }

  function Strip(s: string): (r: string)
    ensures r == "" || (!IsSpace(r[0]) && !IsSpace(r[|r| - 1]))
    ensures forall c :: c in s && !IsSpace(c) ==> c in r
  {
    if |s| == 0 then s
    else if IsSpace(s[0]) then Strip(s[1..])
    else if IsSpace(s[|s| - 1]) then Strip(s[..|s| - 1])
    else s
  }

  predicate Blank(c: char) {
    c == ' ' || c == '\t' || c == '\n' || c == '\r'
  }

  predicate AllBlank(s: string) {
    forall i :: 0 <= i < |s| ==> Blank(s[i])
  }

  /** r is s without the blanks, tabs and line ends around it. */
  ghost predicate Trims(s: string, r: string) {
    && (exists before, after :: Surrounds(s, before, r, after))
    && (r != "" ==> !Blank(r[0]) && !Blank(r[|r| - 1]))
  }

  ghost predicate Surrounds(s: string, before: string, r: string, after: string) {
    s == before + r + after && AllBlank(before) && AllBlank(after)
  }

  lemma BlankBefore(c: char, s: string, before: string, r: string, after: string)
    requires Blank(c) && Surrounds(s, before, r, after)
    ensures Surrounds([c] + s, [c] + before, r, after)
  {
    assert [c] + (before + r + after) == ([c] + before) + r + after;
  }

  lemma BlankAfter(c: char, s: string, before: string, r: string, after: string)
    requires Blank(c) && Surrounds(s, before, r, after)
    ensures Surrounds(s + [c], before, r, after + [c])
  {
    assert (before + r + after) + [c] == before + r + (after + [c]);
  }

  lemma {:induction false} StripSurrounded(s: string) returns (before: string, after: string)
    ensures Surrounds(s, before, Strip(s), after)
    decreases |s|
  {
    if |s| > 0 && IsSpace(s[0]) {
      before, after := StripSurrounded(s[1..]);
      BlankBefore(s[0], s[1..], before, Strip(s[1..]), after);
      assert s == [s[0]] + s[1..];
      before := [s[0]] + before;
    } else if |s| > 0 && IsSpace(s[|s| - 1]) {
      before, after := StripSurrounded(s[..|s| - 1]);
      BlankAfter(s[|s| - 1], s[..|s| - 1], before, Strip(s[..|s| - 1]), after);
      assert s == s[..|s| - 1] + [s[|s| - 1]];
      after := after + [s[|s| - 1]];
    } else {
      before, after := "", "";
      assert s == "" + s + "";
    }
  }

  lemma StripTrims(s: string)
    ensures Trims(s, Strip(s))
  {
    var before, after := StripSurrounded(s);
  }

  lemma StripTwice(s: string)
    ensures Strip(Strip(s)) == Strip(s)
  {
  }

  predicate Supported(phase: Phase, handler: Handler) {
    || (phase == Prepare && handler == PluginPhase)
    || (phase == Prefetch && handler == PrefetchHandler)
    || (phase == Schedule && handler == ScheduleHandler)
    || (phase == Execute && handler == PluginPhase)
    || (phase == Postprocess && handler == PluginPhase)
    || (phase == Results && handler == PersistResults)
  }

  /** Text that is not blank. */
  predicate Filled(e: Entry) {
    e.Text? && Strip(e.s) != ""
  }

  function IdOf(e: Entry): StageId
    requires e.Text?
  {
    StageId(Strip(e.s))
  }

  /** What one stage must be, whatever the others are. */
  predicate Shaped(raw: RawStage) {
    && raw.Object?
    && Filled(raw.id)
    && Supported(raw.phase, raw.handler)
    && (if raw.phase == Results then raw.next.Absent? else Filled(raw.next))
  }

  function Clean(raw: RawStage): Stage
    requires Shaped(raw)
  {
    Stage(IdOf(raw.id), raw.phase, if raw.phase == Results then None else Some(IdOf(raw.next)))
  }

  /** A well-shaped stage keeps its phase, and its id and the id it names as next lose the blanks around them. */
  lemma CleanKeeps(raw: RawStage)
    requires Shaped(raw)
    ensures Clean(raw).phase == raw.phase
    ensures Trims(raw.id.s, Clean(raw).id.text) && Clean(raw).id.text != ""
    ensures raw.phase == Results ==> Clean(raw).next.None?
    ensures raw.phase != Results ==> Clean(raw).next.Some? && raw.next.Text? && Trims(raw.next.s, Clean(raw).next.value.text)
  {
    StripTrims(raw.id.s);
    if raw.phase != Results { StripTrims(raw.next.s); }
  }

  /** Every phase the runner knows has exactly one handler, and no other phase has any. */
  lemma HandlerIsUnique(phase: Phase, handler: Handler)
    ensures Supported(phase, handler) <==>
            match handler
            case PluginPhase => phase == Prepare || phase == Execute || phase == Postprocess
            case PrefetchHandler => phase == Prefetch
            case ScheduleHandler => phase == Schedule
            case PersistResults => phase == Results
            case OtherHandler(_) => false
  {
  }

  predicate AllShaped(raw: seq<RawStage>) {
    forall i :: 0 <= i < |raw| ==> Shaped(raw[i])
  }

  function CleanAll(raw: seq<RawStage>): (stages: seq<Stage>)
    requires AllShaped(raw)
    ensures |stages| == |raw| && forall i :: 0 <= i < |raw| ==> stages[i] == Clean(raw[i])
  {
    seq(|raw|, i requires 0 <= i < |raw| => Clean(raw[i]))
  }

  // ---------------------------------------------------------------------------------------
  // Chains

  predicate DistinctIds(stages: seq<Stage>) {
    forall i, j :: 0 <= i < j < |stages| ==> stages[i].id != stages[j].id
  }

  predicate Has(stages: seq<Stage>, id: StageId) {
    exists i :: 0 <= i < |stages| && stages[i].id == id
  }

  /** Exactly the stages that are not results name a successor, and it exists. */
  predicate Linked(stages: seq<Stage>) {
    forall i :: 0 <= i < |stages| ==> LinkedAt(stages, i)
  }

  predicate LinkedAt(stages: seq<Stage>, i: nat)
    requires i < |stages|
  {
    if stages[i].phase == Results then stages[i].next.None?
    else stages[i].next.Some? && Has(stages, stages[i].next.value)
  }

  predicate Follows(stages: seq<Stage>, i: nat, j: nat) {
    i < |stages| && j < |stages| && stages[i].phase != Results && stages[i].next == Some(stages[j].id)
  }

  /** A nonempty list of stages, each the successor of the one before. */
  predicate IsPath(stages: seq<Stage>, path: seq<nat>) {
    && |path| > 0
    && (forall k :: 0 <= k < |path| ==> path[k] < |stages|)
    && (forall k :: 0 <= k < |path| - 1 ==> Follows(stages, path[k], path[k + 1]))
  }

  /** A path that ends in a results stage. */
  predicate IsChain(stages: seq<Stage>, path: seq<nat>) {
    IsPath(stages, path) && stages[path[|path| - 1]].phase == Results
  }

  /** The chain from stage i ends in a results stage. */
  ghost predicate EndsInResults(stages: seq<Stage>, i: nat) {
    exists path :: IsChain(stages, path) && path[0] == i
  }

  /** The pipelines the runner is meant to accept. */
  ghost predicate WellFormed(raw: seq<RawStage>) {
    && AllShaped(raw)
    && DistinctIds(CleanAll(raw))
    && Linked(CleanAll(raw))
    && forall i :: 0 <= i < |raw| ==> EndsInResults(CleanAll(raw), i)
  }

  /** On a path that leads to a stage whose chain ends in results, every stage does. */
  lemma PathEnds(stages: seq<Stage>, path: seq<nat>, k: nat)
    requires IsPath(stages, path) && k < |path|
    requires EndsInResults(stages, path[|path| - 1])
    ensures EndsInResults(stages, path[k])
  {
    var tail :| IsChain(stages, tail) && tail[0] == path[|path| - 1];
    var whole := path[k..|path| - 1] + tail;
    assert IsChain(stages, whole) by {
      forall i | 0 <= i < |whole| - 1 ensures Follows(stages, whole[i], whole[i + 1]) {
        if i < |path| - 1 - k { assert Follows(stages, path[k + i], path[k + i + 1]); }
        else { assert Follows(stages, tail[i - (|path| - 1 - k)], tail[i - (|path| - 1 - k) + 1]); }
      }
    }
    assert whole[0] == path[k];
  }

  lemma ResultsEnds(stages: seq<Stage>, i: nat)
    requires i < |stages| && stages[i].phase == Results
    ensures EndsInResults(stages, i)
  {
    var path: seq<nat> := [i];
    assert IsChain(stages, path);
  }

  /** No results stage among `members`, and every successor of a member is a member. */
  ghost predicate Trapped(stages: seq<Stage>, members: seq<nat>) {
    forall k :: 0 <= k < |members| ==> TrappedAt(stages, members, members[k])
  }

  ghost predicate TrappedAt(stages: seq<Stage>, members: seq<nat>, i: nat) {
    && i < |stages|
    && stages[i].phase != Results
    && (forall j: nat :: Follows(stages, i, j) ==> j in members)
  }

  lemma {:induction false} TrappedPath(stages: seq<Stage>, members: seq<nat>, path: seq<nat>, k: nat)
    requires Trapped(stages, members) && IsPath(stages, path) && path[0] in members && k < |path|
    ensures path[k] in members
  {
    if k > 0 {
      TrappedPath(stages, members, path, k - 1);
      assert TrappedAt(stages, members, path[k - 1]);
      assert Follows(stages, path[k - 1], path[k - 1 + 1]);
    }
  }

  lemma TrappedNeverEnds(stages: seq<Stage>, members: seq<nat>, i: nat)
    requires Trapped(stages, members) && i in members
    ensures !EndsInResults(stages, i)
  {
    forall path | IsPath(stages, path) && path[0] == i ensures stages[path[|path| - 1]].phase != Results {
      TrappedPath(stages, members, path, |path| - 1);
      assert TrappedAt(stages, members, path[|path| - 1]);
    }
  }

  /** A path whose last stage leads back into the path is a trap. */
  lemma CycleTraps(stages: seq<Stage>, path: seq<nat>, back: nat)
    requires DistinctIds(stages) && IsPath(stages, path)
    requires Follows(stages, path[|path| - 1], back) && back in path
    ensures Trapped(stages, path)
  {
    forall k | 0 <= k < |path| ensures TrappedAt(stages, path, path[k]) {
      var after := if k < |path| - 1 then path[k + 1] else back;
      assert Follows(stages, path[k], after);
      forall j: nat | Follows(stages, path[k], j) ensures j in path {
        assert stages[j].id == stages[after].id;
        assert j == after;
      }
    }
  }

  lemma ExtendPath(stages: seq<Stage>, path: seq<nat>, j: nat)
    requires IsPath(stages, path) && Follows(stages, path[|path| - 1], j)
    ensures IsPath(stages, path + [j])
  {
    var longer := path + [j];
    forall k | 0 <= k < |longer| - 1 ensures Follows(stages, longer[k], longer[k + 1]) {
      if k < |path| - 1 { assert Follows(stages, path[k], path[k + 1]); }
    }
  }
}
