/**
 * The quantities the HMM engine computes, as pure definitions over the three
 * tables: the joint probability of one hidden chain together with the
 * observations, the sum of these over an enumeration of chains (evaluation),
 * and the running maximum over it (decoding), folded in enumeration order
 * exactly as the engine's loops accumulate them.
 */
module Probability {
  import opened Tables
  import opened Product

  datatype Model<S, O> = Model(start: Vector<S>, transition: Matrix<S, S>, emission: Matrix<S, O>)
  {
    /** Every lookup `start.df[c0]` and `transition.df[c(i-1)].df[c(i)]` along the chain finds its key. */
    predicate Walkable(chain: seq<S>)
    {
      && chain != []
      && chain[0] in start.df
      && forall i :: 0 <= i < |chain| - 1 ==> chain[i] in transition.df && chain[i + 1] in transition.df[chain[i]].df
    }

    /** Every lookup `emission.df[c(i)].df[obs(i)]` along the chain finds its key. */
    predicate Emittable(chain: seq<S>, obs: seq<O>)
    {
      && chain != []
      && |chain| <= |obs|
      && forall i :: 0 <= i < |chain| ==> chain[i] in emission.df && obs[i] in emission.df[chain[i]].df
    }

    /** A chain as long as the observations, all of whose lookups succeed. */
    predicate Scorable(chain: seq<S>, obs: seq<O>)
    {
      |chain| == |obs| && Walkable(chain) && Emittable(chain, obs)
    }

    predicate AllScorable(chains: seq<seq<S>>, obs: seq<O>)
    {
      forall c :: c in chains ==> Scorable(c, obs)
    }

    /**
     * The lookups the engine makes for observations `obs` under state list
     * `states` all succeed: the start weight of each state, its emission
     * weight for each observed symbol, and, once there are two observations
     * or more, the transition weight between each pair of states.
     */
    predicate Defined(states: seq<S>, obs: seq<O>)
    {
      && (forall s :: s in states ==>
            s in start.df && s in emission.df && forall i :: 0 <= i < |obs| ==> obs[i] in emission.df[s].df)
      && (|obs| >= 2 ==> forall p, q :: p in states && q in states ==> p in transition.df && q in transition.df[p].df)
    }

    /** Every weight stored in the three tables is non-negative. */
    predicate NonNegative()
    {
      && (forall s :: s in start.df ==> start.df[s] >= 0.0)
      && (forall p, q :: p in transition.df && q in transition.df[p].df ==> transition.df[p].df[q] >= 0.0)
      && (forall s, o :: s in emission.df && o in emission.df[s].df ==> emission.df[s].df[o] >= 0.0)
    }

    /** start[c0] times the transition weights along the chain. */
    function HiddenProb(chain: seq<S>): real
      requires Walkable(chain)
      decreases |chain|
    {
      if |chain| == 1 then start.df[chain[0]]
      else HiddenProb(chain[..|chain| - 1]) * transition.df[chain[|chain| - 2]].df[chain[|chain| - 1]]
    }

    /** The product of the emission weights of the observed symbols along the chain. */
    function ObservationProb(chain: seq<S>, obs: seq<O>): real
      requires Emittable(chain, obs)
      decreases |chain|
    {
      var e := emission.df[chain[|chain| - 1]].df[obs[|chain| - 1]];
      if |chain| == 1 then e else ObservationProb(chain[..|chain| - 1], obs) * e
    }

    /** The joint probability of a hidden chain and the observations. */
    function Joint(chain: seq<S>, obs: seq<O>): real
      requires Scorable(chain, obs)
    {
      HiddenProb(chain) * ObservationProb(chain, obs)
    }

    /** The sum of the joint probabilities of the chains, added up in order from 0. */
    function Total(chains: seq<seq<S>>, obs: seq<O>): real
      requires AllScorable(chains, obs)
    {
      if chains == [] then 0.0
      else Total(chains[..|chains| - 1], obs) + Joint(chains[|chains| - 1], obs)
    }

    /**
     * The running maximum over the chains in order, starting from `([], 0)`;
     * a chain replaces the best so far only when its joint probability is
     * strictly greater.
     */
    function Optimal(chains: seq<seq<S>>, obs: seq<O>): (seq<S>, real)
      requires AllScorable(chains, obs)
    {
      if chains == [] then ([], 0.0)
      else
        var best := Optimal(chains[..|chains| - 1], obs);
        var p := Joint(chains[|chains| - 1], obs);
        if p > best.1 then (chains[|chains| - 1], p) else best
    }

    /** start[s] times emission[s][o], summed over the states in order. */
    function FirstStepSum(states: seq<S>, o: O): real
      requires Defined(states, [o])
    {
      if states == [] then 0.0
      else
        var s := states[|states| - 1];
        assert s in states && [o][0] == o;
        FirstStepSum(states[..|states| - 1], o) + start.df[s] * emission.df[s].df[o]
    }
  }

  /** Under the engine's lookup condition, every enumerated chain can be scored. */
  lemma ChainsScorable<S, O>(m: Model<S, O>, states: seq<S>, obs: seq<O>)
    requires |obs| >= 1 && m.Defined(states, obs)
    ensures m.AllScorable(Chains(states, |obs|), obs)
  {
    forall c | c in Chains(states, |obs|) ensures m.Scorable(c, obs) {
      ChainsMembership(states, |obs|, c);
      assert forall i :: 0 <= i < |c| ==> c[i] in states;
    }
  }

  /**
   * Conversely, when every enumerated chain can be scored, every lookup that
   * `Defined` names succeeds: `Defined` asks for no key the engine does not read.
   */
  lemma ScorableDefined<S, O>(m: Model<S, O>, states: seq<S>, obs: seq<O>)
    requires |obs| >= 1 && m.AllScorable(Chains(states, |obs|), obs)
    ensures m.Defined(states, obs)
  {
    var n := |obs|;
    forall s | s in states
      ensures s in m.start.df && s in m.emission.df && forall i :: 0 <= i < n ==> obs[i] in m.emission.df[s].df
    {
      var c := seq(n, _ => s);
      ChainsMembership(states, n, c);
      assert m.Scorable(c, obs);
      assert c[0] == s;
    }
    if n >= 2 {
      forall p, q | p in states && q in states
        ensures p in m.transition.df && q in m.transition.df[p].df
      {
        var c := [p, q] + seq(n - 2, _ => q);
        ChainsMembership(states, n, c);
        assert m.Scorable(c, obs);
        assert c[0] == p && c[1] == q;
      }
    }
  }

  lemma {:induction false} HiddenProbNonNegative<S, O>(m: Model<S, O>, chain: seq<S>)
    requires m.NonNegative() && m.Walkable(chain)
    ensures m.HiddenProb(chain) >= 0.0
    decreases |chain|
  {
    if |chain| > 1 {
      HiddenProbNonNegative(m, chain[..|chain| - 1]);
    }
  }

  lemma {:induction false} ObservationProbNonNegative<S, O>(m: Model<S, O>, chain: seq<S>, obs: seq<O>)
    requires m.NonNegative() && m.Emittable(chain, obs)
    ensures m.ObservationProb(chain, obs) >= 0.0
    decreases |chain|
  {
    if |chain| > 1 {
      ObservationProbNonNegative(m, chain[..|chain| - 1], obs);
    }
  }

  /** With non-negative tables every joint probability is non-negative. */
  lemma JointNonNegative<S, O>(m: Model<S, O>, chain: seq<S>, obs: seq<O>)
    requires m.NonNegative() && m.Scorable(chain, obs)
    ensures m.Joint(chain, obs) >= 0.0
  {
    HiddenProbNonNegative(m, chain);
    ObservationProbNonNegative(m, chain, obs);
  }

  /** With non-negative tables the evaluated total is non-negative. */
  lemma {:induction false} TotalNonNegative<S, O>(m: Model<S, O>, chains: seq<seq<S>>, obs: seq<O>)
    requires m.NonNegative() && m.AllScorable(chains, obs)
    ensures m.Total(chains, obs) >= 0.0
  {
    if chains != [] {
      TotalNonNegative(m, chains[..|chains| - 1], obs);
      JointNonNegative(m, chains[|chains| - 1], obs);
    }
  }

  /** One iteration of the evaluation loop: the next chain's joint probability is added to the prefix sum. */
  lemma TotalStep<S, O>(m: Model<S, O>, chains: seq<seq<S>>, k: nat, obs: seq<O>)
    requires m.AllScorable(chains, obs) && k < |chains|
    ensures m.AllScorable(chains[..k], obs) && m.AllScorable(chains[..k + 1], obs) && m.Scorable(chains[k], obs)
    ensures m.Total(chains[..k + 1], obs) == m.Total(chains[..k], obs) + m.Joint(chains[k], obs)
  {
    assert chains[..k + 1][..k] == chains[..k] && chains[..k + 1][k] == chains[k];
  }

  /** One iteration of the decoding loop: the next chain replaces the best so far only when strictly greater. */
  lemma OptimalStep<S, O>(m: Model<S, O>, chains: seq<seq<S>>, k: nat, obs: seq<O>)
    requires m.AllScorable(chains, obs) && k < |chains|
    ensures m.AllScorable(chains[..k], obs) && m.AllScorable(chains[..k + 1], obs) && m.Scorable(chains[k], obs)
    ensures var best, p := m.Optimal(chains[..k], obs), m.Joint(chains[k], obs);
      m.Optimal(chains[..k + 1], obs) == if p > best.1 then (chains[k], p) else best
  {
    assert chains[..k + 1][..k] == chains[..k] && chains[..k + 1][k] == chains[k];
  }

  /** The decoded probability is at least 0 and at least the joint probability of every chain. */
  lemma {:induction false} OptimalIsMaximum<S, O>(m: Model<S, O>, chains: seq<seq<S>>, obs: seq<O>)
    requires m.AllScorable(chains, obs)
    ensures 0.0 <= m.Optimal(chains, obs).1
    ensures forall i :: 0 <= i < |chains| ==> m.Joint(chains[i], obs) <= m.Optimal(chains, obs).1
  {
    if chains != [] {
      var prefix := chains[..|chains| - 1];
      OptimalIsMaximum(m, prefix, obs);
      forall i | 0 <= i < |chains| ensures m.Joint(chains[i], obs) <= m.Optimal(chains, obs).1 {
        if i < |chains| - 1 {
          assert chains[i] == prefix[i];
        }
      }
    }
  }

  /**
   * A non-empty decoded sequence is an enumerated chain whose joint
   * probability is the decoded probability, and the first one in enumeration
   * order to reach it: every earlier chain scores strictly less.
   */
  lemma {:induction false} OptimalIsFirstWitness<S, O>(m: Model<S, O>, chains: seq<seq<S>>, obs: seq<O>)
    requires m.AllScorable(chains, obs)
    ensures m.Optimal(chains, obs).0 != [] ==>
              exists k :: 0 <= k < |chains| && chains[k] == m.Optimal(chains, obs).0
                       && m.Joint(chains[k], obs) == m.Optimal(chains, obs).1
                       && forall j :: 0 <= j < k ==> m.Joint(chains[j], obs) < m.Optimal(chains, obs).1
  {
    if chains != [] {
      var prefix := chains[..|chains| - 1];
      var last := chains[|chains| - 1];
      var best := m.Optimal(prefix, obs);
      OptimalIsMaximum(m, prefix, obs);
      OptimalIsFirstWitness(m, prefix, obs);
      if m.Joint(last, obs) > best.1 {
        var k := |chains| - 1;
        forall j | 0 <= j < k ensures m.Joint(chains[j], obs) < m.Optimal(chains, obs).1 {
          assert chains[j] == prefix[j];
        }
      } else if best.0 != [] {
        var k :| 0 <= k < |prefix| && prefix[k] == best.0 && m.Joint(prefix[k], obs) == best.1
               && forall j :: 0 <= j < k ==> m.Joint(prefix[j], obs) < best.1;
        assert chains[k] == prefix[k];
        forall j | 0 <= j < k ensures m.Joint(chains[j], obs) < m.Optimal(chains, obs).1 {
          assert chains[j] == prefix[j];
        }
      }
    }
  }

  /**
   * Decoding reports the empty sequence exactly when no chain has a positive
   * joint probability, and then reports probability 0.
   */
  lemma {:induction false} OptimalEmpty<S, O>(m: Model<S, O>, chains: seq<seq<S>>, obs: seq<O>)
    requires m.AllScorable(chains, obs)
    ensures m.Optimal(chains, obs).0 == [] <==> forall i :: 0 <= i < |chains| ==> m.Joint(chains[i], obs) <= 0.0
    ensures m.Optimal(chains, obs).0 == [] ==> m.Optimal(chains, obs).1 == 0.0
  {
    if chains != [] {
      var prefix := chains[..|chains| - 1];
      var last := chains[|chains| - 1];
      OptimalEmpty(m, prefix, obs);
      OptimalIsMaximum(m, prefix, obs);
      assert last in chains;
      if forall i :: 0 <= i < |chains| ==> m.Joint(chains[i], obs) <= 0.0 {
        assert forall i :: 0 <= i < |prefix| ==> m.Joint(prefix[i], obs) <= 0.0 by {
          forall i | 0 <= i < |prefix| ensures m.Joint(prefix[i], obs) <= 0.0 {
            assert prefix[i] == chains[i];
          }
        }
      } else {
        var i :| 0 <= i < |chains| && m.Joint(chains[i], obs) > 0.0;
        OptimalIsMaximum(m, chains, obs);
        if i < |prefix| {
          assert prefix[i] == chains[i];
        }
      }
    }
  }

  /** The three facts above, with chains named by membership where their position does not matter. */
  lemma OptimalCharacterized<S, O>(m: Model<S, O>, chains: seq<seq<S>>, obs: seq<O>)
    requires m.AllScorable(chains, obs)
    ensures var r := m.Optimal(chains, obs);
      && 0.0 <= r.1
      && (forall c :: c in chains ==> m.Joint(c, obs) <= r.1)
      && (r.0 == [] <==> forall c :: c in chains ==> m.Joint(c, obs) <= 0.0)
      && (r.0 == [] ==> r.1 == 0.0)
      && (r.0 != [] ==>
            exists k :: 0 <= k < |chains| && chains[k] == r.0 && m.Joint(chains[k], obs) == r.1
                     && forall j :: 0 <= j < k ==> m.Joint(chains[j], obs) < r.1)
  {
    OptimalIsMaximum(m, chains, obs);
    OptimalEmpty(m, chains, obs);
    OptimalIsFirstWitness(m, chains, obs);
    assert forall c :: c in chains <==> exists i :: 0 <= i < |chains| && chains[i] == c;
  }

  /**
   * Conversely, a chain with positive joint probability that beats every earlier
   * chain strictly and every later one at least weakly is what decoding returns.
   */
  lemma OptimalAt<S, O>(m: Model<S, O>, chains: seq<seq<S>>, obs: seq<O>, k: nat)
    requires m.AllScorable(chains, obs) && k < |chains|
    requires m.Joint(chains[k], obs) > 0.0
    requires forall j :: 0 <= j < k ==> m.Joint(chains[j], obs) < m.Joint(chains[k], obs)
    requires forall j :: k < j < |chains| ==> m.Joint(chains[j], obs) <= m.Joint(chains[k], obs)
    ensures m.Optimal(chains, obs) == (chains[k], m.Joint(chains[k], obs))
  {
    OptimalCharacterized(m, chains, obs);
    var r := m.Optimal(chains, obs);
    assert chains[k] in chains;
    var w :| 0 <= w < |chains| && chains[w] == r.0 && m.Joint(chains[w], obs) == r.1
             && forall j :: 0 <= j < w ==> m.Joint(chains[j], obs) < r.1;
    assert chains[w] in chains;
  }

  /** If every chain has joint probability 0, evaluation gives 0 and decoding gives `([], 0)`. */
  lemma {:induction false} AllZero<S, O>(m: Model<S, O>, chains: seq<seq<S>>, obs: seq<O>)
    requires m.AllScorable(chains, obs)
    requires forall i :: 0 <= i < |chains| ==> m.Joint(chains[i], obs) == 0.0
    ensures m.Total(chains, obs) == 0.0
    ensures m.Optimal(chains, obs) == ([], 0.0)
  {
    OptimalEmpty(m, chains, obs);
    if chains != [] {
      var prefix := chains[..|chains| - 1];
      forall i | 0 <= i < |prefix| ensures m.Joint(prefix[i], obs) == 0.0 {
        assert prefix[i] == chains[i];
      }
      AllZero(m, prefix, obs);
    }
  }

  /** With no states nothing is enumerated: evaluation gives 0 and decoding gives `([], 0)`. */
  lemma NoStates<S, O>(m: Model<S, O>, obs: seq<O>)
    requires |obs| >= 1
    ensures Chains<S>([], |obs|) == []
    ensures m.Total(Chains<S>([], |obs|), obs) == 0.0 && m.Optimal(Chains<S>([], |obs|), obs) == ([], 0.0)
  {
    var none: seq<S> := [];
    assert |Chains(none, |obs|)| == |Chains(none, |obs| - 1)| * 0;
  }

  /**
   * Decoding never exceeds evaluation: with non-negative tables the decoded
   * probability is one term of the sum over the same enumeration.
   */
  lemma {:induction false} OptimalAtMostTotal<S, O>(m: Model<S, O>, chains: seq<seq<S>>, obs: seq<O>)
    requires m.NonNegative() && m.AllScorable(chains, obs)
    ensures 0.0 <= m.Optimal(chains, obs).1 <= m.Total(chains, obs)
  {
    OptimalIsMaximum(m, chains, obs);
    if chains != [] {
      var prefix := chains[..|chains| - 1];
      OptimalAtMostTotal(m, prefix, obs);
      TotalNonNegative(m, prefix, obs);
      JointNonNegative(m, chains[|chains| - 1], obs);
    }
  }

  /** The one-element chains, one per state and in state order. */
  lemma SingleChains<S>(states: seq<S>)
    ensures Chains(states, 1) == seq(|states|, j requires 0 <= j < |states| => [states[j]])
  {
    var empty: seq<S> := [];
    var prefixes := [empty];
    assert Chains(states, 1) == Extend(prefixes, states);
    var head := seq(|states|, j requires 0 <= j < |states| => prefixes[0] + [states[j]]);
    assert prefixes[1..] == [];
    assert Extend(prefixes, states) == head + Extend(prefixes[1..], states);
    forall j | 0 <= j < |states| ensures head[j] == [states[j]] {
      assert prefixes[0] + [states[j]] == [states[j]];
    }
  }

  /**
   * For a single observation there are no transitions: evaluation is the sum
   * over the states of start weight times emission weight.
   */
  lemma SingleObservation<S, O>(m: Model<S, O>, states: seq<S>, o: O)
    requires m.Defined(states, [o])
    ensures m.AllScorable(Chains(states, 1), [o])
    ensures m.Total(Chains(states, 1), [o]) == m.FirstStepSum(states, o)
  {
    ChainsScorable(m, states, [o]);
    SingleChains(states);
    SingleObservationPrefix(m, states, o, |states|);
    assert states[..|states|] == states;
    assert Chains(states, 1)[..|states|] == Chains(states, 1);
  }

  lemma {:induction false} SingleObservationPrefix<S, O>(m: Model<S, O>, states: seq<S>, o: O, k: nat)
    requires m.Defined(states, [o]) && k <= |states|
    ensures m.AllScorable(Chains(states, 1), [o])
    ensures Chains(states, 1) == seq(|states|, j requires 0 <= j < |states| => [states[j]])
    ensures m.Total(Chains(states, 1)[..k], [o]) == m.FirstStepSum(states[..k], o)
  {
    ChainsScorable(m, states, [o]);
    SingleChains(states);
    var cs := Chains(states, 1);
    if k > 0 {
      SingleObservationPrefix(m, states, o, k - 1);
      assert cs[..k][..k - 1] == cs[..k - 1];
      assert states[..k][..k - 1] == states[..k - 1];
      assert cs[..k][k - 1] == [states[k - 1]];
    }
  }

  /**
   * With a single state the enumeration is the one constant chain: evaluation
   * is its joint probability, and decoding returns that chain and probability
   * only when it is positive; a zero product decodes to `([], 0)`, because
   * the running maximum replaces its initial 0 only on a strictly greater value.
   */
  lemma SingleState<S, O>(m: Model<S, O>, s: S, obs: seq<O>)
    requires |obs| >= 1 && m.Defined([s], obs)
    ensures Chains([s], |obs|) == [seq(|obs|, _ => s)]
    ensures m.Scorable(seq(|obs|, _ => s), obs)
    ensures m.AllScorable(Chains([s], |obs|), obs)
    ensures var c := seq(|obs|, _ => s);
      && m.Total(Chains([s], |obs|), obs) == m.Joint(c, obs)
      && m.Optimal(Chains([s], |obs|), obs) == if m.Joint(c, obs) > 0.0 then (c, m.Joint(c, obs)) else ([], 0.0)
  {
    SingleStateChains(s, |obs|);
    ChainsScorable(m, [s], obs);
    var c := seq(|obs|, _ => s);
    assert c in Chains([s], |obs|);
    assert [c][..0] == [];
  }
}
