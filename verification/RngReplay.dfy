/**
  Perturbing the fan-out batches (plugins/earth2-ensemble-fanout/earth2_ensemble_fanout_support.py).
  One process perturbs every batch in turn; or each batch is perturbed by its own process, which
  first replays the draws of all batches before it. The perturbation is any function of the random
  state and the batch's initial conditions; it returns the next random state.
*/
module RngReplay {
  import opened Fanout

  /** How a perturbation draws: from a random state and an input, the next state and the output. */
  type Draw<!R, !X, !Y> = (R, X) -> (R, Y)

  /** The random state once the first k batches were perturbed in order. */
  function StateBefore<R, X, Y>(draw: Draw<R, X, Y>, seed: R, initial: seq<int> -> X, n: nat, size: nat, k: nat): R
    requires size > 0 && k <= BatchCount(n, size)
    decreases k
  {
    if k == 0 then seed
    else
      BatchInRange(k - 1, n, size);
      draw(StateBefore(draw, seed, initial, n, size, k - 1), initial(BatchMemberIds(k - 1, n, size))).0
  }

  /** What the sequential loop produces for batch k. */
  function Perturbed<R, X, Y>(draw: Draw<R, X, Y>, seed: R, initial: seq<int> -> X, n: nat, size: nat, k: nat): Y
    requires size > 0 && k < BatchCount(n, size)
  {
    BatchInRange(k, n, size);
    draw(StateBefore(draw, seed, initial, n, size, k), initial(BatchMemberIds(k, n, size))).1
  }

  /**
    The outputs are those of one pass over the batches from the seed: output k is drawn for the
    members of batch k, from the state the draw for batch k - 1 left.
  */
  ghost predicate OnePass<R, X, Y>(draw: Draw<R, X, Y>, seed: R, initial: seq<int> -> X, n: nat, size: nat,
                                   states: seq<R>, outputs: seq<Y>)
    requires size > 0
  {
    && |states| == |outputs| + 1 && states[0] == seed
    && forall k :: 0 <= k < |outputs| ==> k * size < n && Drawn(draw, initial, n, size, k, states[k], states[k + 1], outputs[k])
  }

  ghost predicate Drawn<R, X, Y>(draw: Draw<R, X, Y>, initial: seq<int> -> X, n: nat, size: nat, k: nat, before: R, after: R, y: Y)
    requires size > 0 && k * size < n
  {
    draw(before, initial(BatchMemberIds(k, n, size))) == (after, y)
  }

  lemma PassExtends<R, X, Y>(draw: Draw<R, X, Y>, seed: R, initial: seq<int> -> X, n: nat, size: nat,
                             states: seq<R>, outputs: seq<Y>, after: R, y: Y)
    requires size > 0 && OnePass(draw, seed, initial, n, size, states, outputs) && |outputs| * size < n
    requires Drawn(draw, initial, n, size, |outputs|, states[|outputs|], after, y)
    ensures OnePass(draw, seed, initial, n, size, states + [after], outputs + [y])
  {
    var longer, ys := states + [after], outputs + [y];
    forall k | 0 <= k < |ys| ensures k * size < n && Drawn(draw, initial, n, size, k, longer[k], longer[k + 1], ys[k]) {
      if k < |outputs| { assert Drawn(draw, initial, n, size, k, states[k], states[k + 1], outputs[k]); }
    }
  }

  /** The process-wide random generator together with the perturbation that draws from it. */
  class Sampler<R, X, Y> {
    const draw: Draw<R, X, Y>
    var state: R

    constructor (draw: Draw<R, X, Y>, state: R)
      ensures this.draw == draw && this.state == state
    {
      this.draw := draw;
      this.state := state;
    }

    /** torch.manual_seed */
    method Seed(seed: R)
      modifies this
      ensures state == seed
    {
      state := seed;
    }

    method Perturb(x: X) returns (y: Y)
      modifies this
      ensures state == draw(old(state), x).0 && y == draw(old(state), x).1
    {
      var next := draw(state, x);
      state := next.0;
      y := next.1;
    }
  }

  /** _materialize_prepared_batch_states: all batches, one after the other. */
  method PerturbAll<R, X, Y>(sampler: Sampler<R, X, Y>, seed: R, initial: seq<int> -> X, n: nat, size: nat)
    returns (outputs: seq<Y>, ghost states: seq<R>)
    requires size > 0
    modifies sampler
    ensures OnePass(sampler.draw, seed, initial, n, size, states, outputs)
    ensures |outputs| == BatchCount(n, size)
    ensures forall k :: 0 <= k < |outputs| ==> outputs[k] == Perturbed(sampler.draw, seed, initial, n, size, k)
  {
    sampler.Seed(seed);
    var batches := BuildFanoutBatches(n, size);
    outputs, states := [], [sampler.state];
    for k := 0 to |batches|
      invariant |outputs| == k
      invariant OnePass(sampler.draw, seed, initial, n, size, states, outputs) && states[k] == sampler.state
      invariant sampler.state == StateBefore(sampler.draw, seed, initial, n, size, k)
      invariant forall j :: 0 <= j < k ==> outputs[j] == Perturbed(sampler.draw, seed, initial, n, size, j)
    {
      var y := sampler.Perturb(initial(batches[k]));
      BatchInRange(k, n, size);
      PassExtends(sampler.draw, seed, initial, n, size, states, outputs, sampler.state, y);
      outputs, states := outputs + [y], states + [sampler.state];
    }
  }

  /** _load_and_perturb_batch_initial_conditions: batch k alone, after replaying the batches before it. */
  method PerturbOne<R, X, Y>(sampler: Sampler<R, X, Y>, seed: R, initial: seq<int> -> X, n: nat, size: nat, k: nat)
    returns (output: Y)
    requires size > 0 && k < BatchCount(n, size)
    modifies sampler
    ensures output == Perturbed(sampler.draw, seed, initial, n, size, k)
  {
    sampler.Seed(seed);
    for prior := 0 to k
      invariant sampler.state == StateBefore(sampler.draw, seed, initial, n, size, prior)
    {
      BatchInRange(prior, n, size);
      var replayed := sampler.Perturb(initial(BatchMemberIds(prior, n, size)));
    }
    BatchInRange(k, n, size);
    output := sampler.Perturb(initial(BatchMemberIds(k, n, size)));
  }

  /**
    A fan-out worker that starts from any random state produces for its batch what the sequential
    process produces for it.
  */
  method ReplayMatchesSequential<R, X, Y>(here: Sampler<R, X, Y>, there: Sampler<R, X, Y>, seed: R, initial: seq<int> -> X,
                                          n: nat, size: nat, k: nat)
    returns (all: seq<Y>, one: Y, ghost states: seq<R>)
    requires size > 0 && k < BatchCount(n, size) && here.draw == there.draw
    modifies here, there
    ensures |all| == BatchCount(n, size) && one == all[k]
    ensures OnePass(here.draw, seed, initial, n, size, states, all)
  {
    all, states := PerturbAll(here, seed, initial, n, size);
    one := PerturbOne(there, seed, initial, n, size, k);
  }
}
