# Discrete Hidden Markov Model engine, in Dafny

This project models `MP3_HMM.py`, a small engine for a discrete Hidden Markov Model.

The model has three probability tables:
- a start vector, mapping each hidden state to its initial weight;
- a transition matrix, mapping each state to a vector over the next state;
- an emission matrix, mapping each state to a vector over the observed symbols.

The engine answers two questions about a sequence of observations. Both work by brute force over every hidden-state chain as long as the observations, in the order `itertools.product(states, repeat=n)` produces them.
- **Evaluation** (`get_probability`) sums, over all chains, the joint probability of the chain and the observations.
- **Decoding** (`get_optimal_hidden_sequence`) keeps a running maximum of that joint probability. It starts from `([], 0)`, and a chain replaces the best so far only when it is strictly greater.

How the code is modelled:
- **Tables** (`tables.dfy`). `Vector` and `Matrix` are never changed after construction, so they are values here, not objects. Both are `Table<K, V>`: the key list `states` in insertion order, plus the lookup `df`. A Python dictionary literal is modelled as its list of entries.
- **Product** (`product.dfy`). `Chains(states, n)` is the enumeration. Its count, its contents, its order and its base-|states| numbering are proved.
- **Probability** (`probability.dfy`). This file holds the pure specification as members of `Model`. `Joint` is the joint weight of one chain. `Total` is the sum of `Joint` over a list of chains. `Optimal` is the running maximum over it, folded with the code's strict `>`. The properties of these folds are proved as lemmas.
- **Engine** (`hmm.dfy`). `HiddenMarkovModel` is a class with the source's fields. Its two methods keep the source's loops and accumulators (`probability +=`, `p_hidden_state *=`, `p_observations *=`, the running `max_probability` / `optimal_sequence`). `GetProbability` is proved equal to `Total` over `Chains`. `GetOptimalHiddenSequence` is proved equal to `Optimal` over `Chains`, and it restates the main decoding facts directly in its postcondition.
- **Weather demonstration** (`weather.dfy`). These modules use the data of the source's `main`. They compute the two scores and the two decodings it prints, and `Report` obtains them by calling the engine.

Probabilities are exact `real`s. A dictionary lookup of a missing key raises `KeyError` in the source. Here it is a precondition: `Defined` for the engine, `Scorable` for a single chain.

The code validates nothing. It does not check that the three tables' key sets agree, nor that the observed symbols are known. A missing key matters only when it is looked up, and `Defined` states exactly the keys the code looks up:
- The transition matrix is read only when there are two or more observations, because the inner loop over `range(1, n)` is otherwise empty.
- Keys that no enumerated chain reaches are never read.
- With no states and at least one observation nothing is enumerated, so nothing is read and the score is 0.

The converse also holds: when every enumerated chain can be scored, `Defined` holds (`Probability.ScorableDefined`).

## Model

| member | source | states |
|---|---|---|
| Tables.FromDict | MP3_HMM.py:9-17 | Building a Vector or Matrix from a dictionary gives a valid table. Its key list is the dictionary's keys in insertion order, each listed once and exactly the keys of `df`. Each key looks up the value it was given. |
| Tables.FromDictEntries | MP3_HMM.py:10-12 | The table built from a dictionary gives back that dictionary, entry for entry and in order. |
| Tables.EntriesFromDict | MP3_HMM.py:15-17 | Every valid table is the one built from its own entries. Together with the row above, construction is a bijection between dictionaries and tables. |
| Product.Chains | MP3_HMM.py:30 | `product(self.states, repeat=chain_length)`: exactly \|states\|^n chains are enumerated. |
| Product.ChainsMembership | MP3_HMM.py:49 | A sequence is enumerated if and only if it has length n and every element is one of the states. |
| Product.ChainsRank | MP3_HMM.py:30 | With distinct states, element k of the enumeration is k written in base \|states\|, most significant digit first. |
| Product.ChainsLexOrdered | MP3_HMM.py:49 | With distinct states, the enumeration is strictly increasing in lexicographic order, states ordered as in `states`. |
| Probability.ChainsScorable | MP3_HMM.py:30-38 | When the start, transition and emission lookups for the states and the observed symbols succeed, every enumerated chain can be scored without a KeyError. |
| Probability.ScorableDefined | MP3_HMM.py:30-38 | Conversely, when every enumerated chain can be scored without a KeyError, the lookups of `Defined` all succeed, so `Defined` is exactly the domain free of KeyError. |
| Probability.HiddenProbNonNegative | MP3_HMM.py:31-37 | With non-negative tables the hidden-chain weight is non-negative. |
| Probability.ObservationProbNonNegative | MP3_HMM.py:32-38 | With non-negative tables the observation weight is non-negative. |
| Probability.JointNonNegative | MP3_HMM.py:40 | With non-negative tables every joint probability is non-negative. |
| Probability.TotalNonNegative | MP3_HMM.py:27-42 | With non-negative tables the evaluated total is non-negative. |
| Probability.OptimalIsMaximum | MP3_HMM.py:59-64 | The decoded probability is at least 0 and at least the joint probability of every chain. |
| Probability.OptimalIsFirstWitness | MP3_HMM.py:60-62 | A non-empty decoded sequence is an enumerated chain whose joint probability is the decoded one, and every earlier chain scores strictly less. It is therefore the first maximum; later ties never replace it. |
| Probability.OptimalAt | MP3_HMM.py:59-62 | Conversely, a chain with positive joint probability that beats every earlier chain strictly and no later chain beats is what decoding returns, with its probability. |
| Probability.OptimalEmpty | MP3_HMM.py:45-46 | Decoding returns the empty sequence if and only if no chain has a positive joint probability, and then the probability is 0. |
| Probability.OptimalCharacterized | MP3_HMM.py:44-64 | The decoding facts above, together, with chains named by membership. |
| Probability.AllZero | MP3_HMM.py:28 | When every chain scores 0, evaluation gives 0 and decoding gives `([], 0)`. |
| Probability.NoStates | MP3_HMM.py:45-49 | With no states and at least one observation nothing is enumerated, so evaluation gives 0 and decoding gives `([], 0)`. |
| Probability.OptimalAtMostTotal | MP3_HMM.py:59-61 | With non-negative tables, 0 ≤ the decoded probability ≤ the evaluated total over the same chains. |
| Probability.SingleChains | MP3_HMM.py:30 | The chains of length one are the states themselves, in order. |
| Probability.SingleObservation | MP3_HMM.py:31-34 | For one observation no transition is used, and evaluation is the sum over the states of start weight times emission weight. |
| Probability.SingleObservationPrefix | MP3_HMM.py:31-40 | The same sum, for every prefix of the enumeration. |
| Product.SingleStateChains | MP3_HMM.py:30 | Over a single state there is exactly one chain of each length: that state repeated. |
| Probability.SingleState | MP3_HMM.py:28-64 | With a single state, evaluation is the joint probability of the constant chain. Decoding returns that chain and probability when the probability is positive. When it is 0, decoding returns `([], 0)`, because the strict `>` never replaces the initial 0. |
| Engine.HiddenMarkovModel.constructor | MP3_HMM.py:20-24 | The model keeps its three tables, and its states are the start vector's key list. |
| Engine.HiddenMarkovModel.ScoreChain | MP3_HMM.py:31-38 | The inner loop computes exactly the hidden-chain weight and the observation weight of the chain, and their product is the chain's joint probability. |
| Engine.HiddenMarkovModel.GetProbability | MP3_HMM.py:27-42 | The result is the sum of the joint probabilities of all enumerated chains, added in enumeration order. It is non-negative when the tables are. |
| Engine.HiddenMarkovModel.GetOptimalHiddenSequence | MP3_HMM.py:44-64 | The result is the running strict maximum over the enumeration, starting from `([], 0)`. The probability is ≥ 0 and ≥ every chain's joint probability. The sequence is empty exactly when no chain scores above 0, and then the probability is 0. Otherwise the sequence is the first enumerated chain that reaches the maximum. |
| Weather.StartFromDict | MP3_HMM.py:77 | The demonstration start vector is the one built from its dictionary literal. |
| Weather.TransitionFromDict | MP3_HMM.py:79-85 | The demonstration transition matrix is the one built from its two row vectors. |
| Weather.EmissionFromDict | MP3_HMM.py:82-87 | The demonstration emission matrix is the one built from its two row vectors. |
| Weather.WeatherDefined | MP3_HMM.py:89 | Every lookup the engine makes on the demonstration tables succeeds, for any activities. |
| Weather.WalkScore | MP3_HMM.py:91-95 | `['Walk']` scores 0.6·0.1 + 0.4·0.6 = 0.30. |
| Weather.CleanScore | MP3_HMM.py:91-95 | `['Clean']` scores 0.6·0.5 + 0.4·0.1 = 0.34. |
| WeatherDecode.ChainsOfTwo | MP3_HMM.py:49 | The chains of length two over Rainy and Sunny, in enumeration order. |
| WeatherDecode.ChainsOfThree | MP3_HMM.py:49 | The eight chains of length three over Rainy and Sunny, in enumeration order. |
| WeatherDecode.JointOfThree | MP3_HMM.py:50-59 | The joint probability of any three-element chain, multiplied out into its three transition-side and three emission-side factors. |
| WeatherDecode.JointsShopCleanWalk | MP3_HMM.py:97-102 | The joint probabilities of the eight chains with Shop, Clean, Walk. |
| WeatherDecode.DecodeShopCleanWalk | MP3_HMM.py:97-102 | Shop, Clean, Walk decodes to Rainy, Rainy, Sunny with probability 0.01512. |
| WeatherDecode.JointsCleanCleanClean | MP3_HMM.py:97-102 | The joint probabilities of the eight chains with Clean, Clean, Clean. |
| WeatherDecode.DecodeCleanCleanClean | MP3_HMM.py:97-102 | Clean, Clean, Clean decodes to Rainy, Rainy, Rainy with probability 0.03675. |
| WeatherReport.Report | MP3_HMM.py:76-102 | The engine, built from the demonstration tables, reports 0.30 and 0.34 as the two scores and returns the two decodings above. |

## Left out

- `display_probabilities`, `display_optimal_sequence` and the printing in `main` are left out because they are console output. `main`'s data and calls are kept as `WeatherReport.Report`, without the printing.
- Floating point is left out. Weights are exact `real`s, so the rounding of `+=` and `*=` and the `{:0.2f}%` formatting are not modelled.
- The labels are modelled separately from the strings. The engine is generic in its state and symbol types, and the demonstration uses the enumerations `Condition` and `Activity` in place of the strings `'Rainy'`, `'Walk'` and so on.
- `self.observables` is not a field of the class. It is never used.
- Engine.HiddenMarkovModel.GetProbability requires what the code does not check. It requires at least one observation, because for an empty list the code fails with `IndexError` on `chain[0]` (MP3_HMM.py:31), since `product(states, repeat=0)` yields one empty tuple. It also requires `Defined`, because a missing key raises `KeyError` partway through the enumeration. The error itself is not modelled.
- Engine.HiddenMarkovModel.GetOptimalHiddenSequence has the same two preconditions, for the same reasons.
- No validation of the tables or of the observed symbols is modelled, because the code has none.
- The type difference in the decoded sequence is not modelled. A non-empty result is the tuple that `product` yields, while the empty result is the list `[]`. Both are `seq<S>` here.
- Sharing of `Vector` objects between tables is left out. Tables are values, so a caller that mutates a dictionary after building a table is not modelled.
- Normalisation is left out. The source neither checks nor relies on table weights summing to one. That the scores of all observation sequences of one length sum to one is not proved.
- The forward and Viterbi algorithms are left out, because the source has neither.
- `itertools.product` is modelled only by the library's own definition of its output order, not by its internals.
