/**
 * The HMM engine: a model built from a transition matrix, an emission matrix
 * and a start vector, answering the evaluation problem (total probability of
 * an observation sequence) and the decoding problem (the most probable hidden
 * chain) by walking every hidden chain of the observations' length.
 */
module Engine {
  import opened Tables
  import opened Product
  import opened Probability

  class HiddenMarkovModel<S(==), O(==)> {
    const transitionMatrix: Matrix<S, S>
    const emissionMatrix: Matrix<S, O>
    const start: Vector<S>
    /** The hidden states, in the start vector's key order: the pool of the enumeration. */
    const states: seq<S>

    constructor (transitionMatrix: Matrix<S, S>, emissionMatrix: Matrix<S, O>, start: Vector<S>)
      ensures this.transitionMatrix == transitionMatrix && this.emissionMatrix == emissionMatrix
      ensures this.start == start && states == start.states
    {
      this.transitionMatrix := transitionMatrix;
      this.emissionMatrix := emissionMatrix;
      this.start := start;
      this.states := start.states;
    }

    /** The three tables as one value, for the definitions the engine is proved against. */
    function AsModel(): Model<S, O>
    {
      Model(start, transitionMatrix, emissionMatrix)
    }

    /**
     * The inner loop shared by both operations: the hidden-chain weight and
     * the observation weight of one chain, multiplied up element by element.
     */
    method ScoreChain(chain: seq<S>, observations: seq<O>) returns (pHiddenState: real, pObservations: real)
      requires AsModel().Scorable(chain, observations)
      ensures pHiddenState == AsModel().HiddenProb(chain)
      ensures pObservations == AsModel().ObservationProb(chain, observations)
      ensures pHiddenState * pObservations == AsModel().Joint(chain, observations)
    {
      var chainLength := |observations|;
      pHiddenState := start.df[chain[0]];
      pObservations := emissionMatrix.df[chain[0]].df[observations[0]];
      for i := 1 to chainLength
        invariant AsModel().Walkable(chain[..i]) && AsModel().Emittable(chain[..i], observations)
        invariant pHiddenState == AsModel().HiddenProb(chain[..i])
        invariant pObservations == AsModel().ObservationProb(chain[..i], observations)
      {
        var currentState := chain[i];
        var previousState := chain[i - 1];
        assert chain[..i + 1][..i] == chain[..i];
        pHiddenState := pHiddenState * transitionMatrix.df[previousState].df[currentState];
        pObservations := pObservations * emissionMatrix.df[currentState].df[observations[i]];
      }
      assert chain[..chainLength] == chain;
    }

    /**
     * The evaluation problem: the joint probabilities of all |states|^n hidden
     * chains, `n` the number of observations, summed in enumeration order.
     */
    method GetProbability(observations: seq<O>) returns (probability: real)
      requires |observations| >= 1
      requires AsModel().Defined(states, observations)
      ensures AsModel().AllScorable(Chains(states, |observations|), observations)
      ensures probability == AsModel().Total(Chains(states, |observations|), observations)
      ensures AsModel().NonNegative() ==> probability >= 0.0
    {
      probability := 0.0;
      var model := AsModel();
      var chainLength := |observations|;
      var chains := Chains(states, chainLength);
      ChainsScorable(model, states, observations);
      for k := 0 to |chains|
        invariant model.AllScorable(chains[..k], observations)
        invariant probability == model.Total(chains[..k], observations)
      {
        var chain := chains[k];
        TotalStep(model, chains, k, observations);
        var pHiddenState, pObservations := ScoreChain(chain, observations);
        probability := probability + pHiddenState * pObservations;
      }
      assert chains[..|chains|] == chains;
      if model.NonNegative() {
        TotalNonNegative(model, chains, observations);
      }
    }

    /**
     * The decoding problem: the first chain in enumeration order whose joint
     * probability is greatest, with that probability; `([], 0)` when no chain
     * has a positive one.
     */
    method GetOptimalHiddenSequence(observations: seq<O>) returns (optimalSequence: seq<S>, maxProbability: real)
      requires |observations| >= 1
      requires AsModel().Defined(states, observations)
      ensures AsModel().AllScorable(Chains(states, |observations|), observations)
      ensures (optimalSequence, maxProbability) == AsModel().Optimal(Chains(states, |observations|), observations)
      ensures 0.0 <= maxProbability
      ensures forall c :: c in Chains(states, |observations|) ==> AsModel().Joint(c, observations) <= maxProbability
      ensures optimalSequence == [] <==>
                forall c :: c in Chains(states, |observations|) ==> AsModel().Joint(c, observations) <= 0.0
      ensures optimalSequence == [] ==> maxProbability == 0.0
      ensures optimalSequence != [] ==>
                var chains := Chains(states, |observations|);
                exists k :: 0 <= k < |chains| && chains[k] == optimalSequence
                         && AsModel().Joint(chains[k], observations) == maxProbability
                         && forall j :: 0 <= j < k ==> AsModel().Joint(chains[j], observations) < maxProbability
    {
      optimalSequence := [];
      maxProbability := 0.0;
      var model := AsModel();
      var chainLength := |observations|;
      var chains := Chains(states, chainLength);
      ChainsScorable(model, states, observations);
      for k := 0 to |chains|
        invariant model.AllScorable(chains[..k], observations)
        invariant (optimalSequence, maxProbability) == model.Optimal(chains[..k], observations)
      {
        var chain := chains[k];
        OptimalStep(model, chains, k, observations);
        var pHiddenState, pObservations := ScoreChain(chain, observations);
        var probability := pHiddenState * pObservations;
        if probability > maxProbability {
          maxProbability := probability;
          optimalSequence := chain;
        }
      }
      assert chains[..|chains|] == chains;
      OptimalCharacterized(model, chains, observations);
    }
  }
}
