/**
 * The demonstration model of the HMM program: two weather states and three
 * activities. Its tables serve here as a concrete case for the engine's
 * contracts.
 */
module Weather {
  import opened Tables
  import opened Product
  import opened Probability

  /** The hidden states of the demonstration: the weather. */
  datatype Condition = Rainy | Sunny

  /** The observed symbols of the demonstration: what someone did that day. */
  datatype Activity = Walk | Shop | Clean

  function StartVector(): Vector<Condition>
  {
    Table([Rainy, Sunny], map[Rainy := 0.6, Sunny := 0.4])
  }

  function TransitionMatrix(): Matrix<Condition, Condition>
  {
    Table([Rainy, Sunny], map[Rainy := Table([Rainy, Sunny], map[Rainy := 0.7, Sunny := 0.3]),
                              Sunny := Table([Rainy, Sunny], map[Rainy := 0.4, Sunny := 0.6])])
  }

  function EmissionMatrix(): Matrix<Condition, Activity>
  {
    Table([Rainy, Sunny], map[Rainy := Table([Walk, Shop, Clean], map[Walk := 0.1, Shop := 0.4, Clean := 0.5]),
                              Sunny := Table([Walk, Shop, Clean], map[Walk := 0.6, Shop := 0.3, Clean := 0.1])])
  }

  lemma ElementsOfTwo<K>(a: K, b: K)
    ensures Elements([a, b]) == {a, b}
  {
    assert [a, b][0] == a && [a, b][1] == b;
  }

  lemma ElementsOfThree<K>(a: K, b: K, c: K)
    ensures Elements([a, b, c]) == {a, b, c}
  {
    assert [a, b, c][0] == a && [a, b, c][1] == b && [a, b, c][2] == c;
  }

  /** A table is the one built from a dictionary when it is valid and lists that dictionary's entries. */
  lemma BuiltFrom<K, V>(t: Table<K, V>, d: Dict<K, V>)
    requires t.Valid() && Entries(t) == d
    ensures IsDict(d) && t == FromDict(d)
  {
    EntriesFromDict(t);
  }

  /** The start vector, built from `{'Rainy': 0.6, 'Sunny': 0.4}`. */
  lemma StartFromDict()
    ensures StartVector() == FromDict([(Rainy, 0.6), (Sunny, 0.4)])
  {
    var t := StartVector();
    ElementsOfTwo(Rainy, Sunny);
    assert Entries(t) == [(Rainy, 0.6), (Sunny, 0.4)];
    BuiltFrom(t, [(Rainy, 0.6), (Sunny, 0.4)]);
  }

  /** The transition matrix, built from a dictionary of two row vectors, each built from its own dictionary. */
  lemma TransitionFromDict()
    ensures TransitionMatrix() == FromDict([(Rainy, FromDict([(Rainy, 0.7), (Sunny, 0.3)])),
                                            (Sunny, FromDict([(Rainy, 0.4), (Sunny, 0.6)]))])
  {
    ElementsOfTwo(Rainy, Sunny);
    var rainy := Table([Rainy, Sunny], map[Rainy := 0.7, Sunny := 0.3]);
    var sunny := Table([Rainy, Sunny], map[Rainy := 0.4, Sunny := 0.6]);
    assert Entries(rainy) == [(Rainy, 0.7), (Sunny, 0.3)];
    BuiltFrom(rainy, [(Rainy, 0.7), (Sunny, 0.3)]);
    assert Entries(sunny) == [(Rainy, 0.4), (Sunny, 0.6)];
    BuiltFrom(sunny, [(Rainy, 0.4), (Sunny, 0.6)]);
    var t := TransitionMatrix();
    assert Entries(t) == [(Rainy, rainy), (Sunny, sunny)];
    BuiltFrom(t, [(Rainy, rainy), (Sunny, sunny)]);
  }

  /** The emission matrix, built from a dictionary of two row vectors over the three activities. */
  lemma EmissionFromDict()
    ensures EmissionMatrix() == FromDict([(Rainy, FromDict([(Walk, 0.1), (Shop, 0.4), (Clean, 0.5)])),
                                          (Sunny, FromDict([(Walk, 0.6), (Shop, 0.3), (Clean, 0.1)]))])
  {
    ElementsOfTwo(Rainy, Sunny);
    ElementsOfThree(Walk, Shop, Clean);
    var rainy := Table([Walk, Shop, Clean], map[Walk := 0.1, Shop := 0.4, Clean := 0.5]);
    var sunny := Table([Walk, Shop, Clean], map[Walk := 0.6, Shop := 0.3, Clean := 0.1]);
    assert Entries(rainy) == [(Walk, 0.1), (Shop, 0.4), (Clean, 0.5)];
    BuiltFrom(rainy, [(Walk, 0.1), (Shop, 0.4), (Clean, 0.5)]);
    assert Entries(sunny) == [(Walk, 0.6), (Shop, 0.3), (Clean, 0.1)];
    BuiltFrom(sunny, [(Walk, 0.6), (Shop, 0.3), (Clean, 0.1)]);
    var t := EmissionMatrix();
    assert Entries(t) == [(Rainy, rainy), (Sunny, sunny)];
    BuiltFrom(t, [(Rainy, rainy), (Sunny, sunny)]);
  }

  function WeatherModel(): Model<Condition, Activity>
  {
    Model(StartVector(), TransitionMatrix(), EmissionMatrix())
  }

  const States: seq<Condition> := [Rainy, Sunny]

  /** Every lookup the engine makes into the demonstration tables succeeds, whatever the activities. */
  lemma WeatherDefined(obs: seq<Activity>)
    ensures WeatherModel().Defined(States, obs)
  {
    var m := WeatherModel();
    var e := m.emission.df;
    var t := m.transition.df;
    forall s, i | s in States && 0 <= i < |obs| ensures obs[i] in e[s].df {
      assert obs[i] == Walk || obs[i] == Shop || obs[i] == Clean;
    }
    forall p, q | p in States && q in States ensures p in t && q in t[p].df {
      assert q == Rainy || q == Sunny;
    }
  }

  /** Walking alone scores 0.6 * 0.1 + 0.4 * 0.6 = 0.30. */
  lemma WalkScore()
    ensures WeatherModel().AllScorable(Chains(States, 1), [Walk])
    ensures WeatherModel().Total(Chains(States, 1), [Walk]) == 0.30
  {
    WeatherDefined([Walk]);
    SingleObservation(WeatherModel(), States, Walk);
    assert States[..1] == [Rainy] && [Rainy][..0] == [];
  }

  /** Cleaning alone scores 0.6 * 0.5 + 0.4 * 0.1 = 0.34. */
  lemma CleanScore()
    ensures WeatherModel().AllScorable(Chains(States, 1), [Clean])
    ensures WeatherModel().Total(Chains(States, 1), [Clean]) == 0.34
  {
    WeatherDefined([Clean]);
    SingleObservation(WeatherModel(), States, Clean);
    assert States[..1] == [Rainy] && [Rainy][..0] == [];
  }
}

module WeatherDecode {
  import opened Product
  import opened Probability
  import opened Weather

  lemma ExtendByTwo<S>(prefixes: seq<seq<S>>, u: S, v: S)
    requires prefixes != []
    ensures Extend(prefixes, [u, v]) == [prefixes[0] + [u], prefixes[0] + [v]] + Extend(prefixes[1..], [u, v])
  {
    var pool := [u, v];
    var head := seq(|pool|, j requires 0 <= j < |pool| => prefixes[0] + [pool[j]]);
    assert head == [prefixes[0] + [u], prefixes[0] + [v]];
  }

  lemma ChainsOfTwo()
    ensures Chains(States, 2) == [[Rainy, Rainy], [Rainy, Sunny], [Sunny, Rainy], [Sunny, Sunny]]
  {
    var states := States;
    SingleChains(states);
    var c1 := Chains(states, 1);
    assert c1 == [[Rainy], [Sunny]];
    ExtendByTwo(c1, Rainy, Sunny);
    ExtendByTwo(c1[1..], Rainy, Sunny);
    assert c1[1..][1..] == c1[2..] && |c1[2..]| == 0 && Extend(c1[2..], states) == [];
    assert [Rainy] + [Rainy] == [Rainy, Rainy] && [Rainy] + [Sunny] == [Rainy, Sunny];
    assert [Sunny] + [Rainy] == [Sunny, Rainy] && [Sunny] + [Sunny] == [Sunny, Sunny];
  }

  /** The eight chains of length three over the two weather states, in enumeration order. */
  const ThreeDays: seq<seq<Condition>> :=
      [[Rainy, Rainy, Rainy], [Rainy, Rainy, Sunny], [Rainy, Sunny, Rainy], [Rainy, Sunny, Sunny],
       [Sunny, Rainy, Rainy], [Sunny, Rainy, Sunny], [Sunny, Sunny, Rainy], [Sunny, Sunny, Sunny]]

  lemma ChainsOfThree()
    ensures Chains(States, 3) == ThreeDays
  {
    var states := States;
    ChainsOfTwo();
    var c2 := Chains(states, 2);
    assert Chains(states, 3) == Extend(c2, states);
    ExtendByTwo(c2, Rainy, Sunny);
    ExtendByTwo(c2[1..], Rainy, Sunny);
    ExtendByTwo(c2[2..], Rainy, Sunny);
    ExtendByTwo(c2[3..], Rainy, Sunny);
    assert c2[1..][1..] == c2[2..] && c2[2..][1..] == c2[3..] && c2[3..][1..] == c2[4..];
    assert |c2[4..]| == 0 && Extend(c2[4..], states) == [];
    assert c2[1..][0] == c2[1] && c2[2..][0] == c2[2] && c2[3..][0] == c2[3];
    assert [Rainy, Rainy] + [Rainy] == [Rainy, Rainy, Rainy] && [Rainy, Rainy] + [Sunny] == [Rainy, Rainy, Sunny];
    assert [Rainy, Sunny] + [Rainy] == [Rainy, Sunny, Rainy] && [Rainy, Sunny] + [Sunny] == [Rainy, Sunny, Sunny];
    assert [Sunny, Rainy] + [Rainy] == [Sunny, Rainy, Rainy] && [Sunny, Rainy] + [Sunny] == [Sunny, Rainy, Sunny];
    assert [Sunny, Sunny] + [Rainy] == [Sunny, Sunny, Rainy] && [Sunny, Sunny] + [Sunny] == [Sunny, Sunny, Sunny];
  }

  /** The joint probability of a three-element chain, multiplied out. */
  lemma JointOfThree<S, O>(m: Model<S, O>, c: seq<S>, obs: seq<O>)
    requires |c| == 3 && m.Scorable(c, obs)
    ensures m.Joint(c, obs) ==
      (m.start.df[c[0]] * m.transition.df[c[0]].df[c[1]] * m.transition.df[c[1]].df[c[2]])
      * (m.emission.df[c[0]].df[obs[0]] * m.emission.df[c[1]].df[obs[1]] * m.emission.df[c[2]].df[obs[2]])
  {
    assert c[..2][..1] == c[..1] && c[..2][1] == c[1];
    assert c[..|c| - 1] == c[..2];
    assert m.HiddenProb(c[..1]) == m.start.df[c[0]];
    assert m.HiddenProb(c[..2]) == m.HiddenProb(c[..1]) * m.transition.df[c[0]].df[c[1]];
    assert m.HiddenProb(c) == m.HiddenProb(c[..2]) * m.transition.df[c[1]].df[c[2]];
    assert m.ObservationProb(c[..1], obs) == m.emission.df[c[0]].df[obs[0]];
    assert m.ObservationProb(c[..2], obs) == m.ObservationProb(c[..1], obs) * m.emission.df[c[1]].df[obs[1]];
    assert m.ObservationProb(c, obs) == m.ObservationProb(c[..2], obs) * m.emission.df[c[2]].df[obs[2]];
  }

  /** Any three-day chain with any three activities can be scored under the demonstration tables. */
  lemma WeatherScorable(c: seq<Condition>, obs: seq<Activity>)
    requires |c| == 3 && |obs| == 3
    ensures WeatherModel().Scorable(c, obs)
  {
    WeatherDefined(obs);
    assert IsChain(States, 3, c) by {
      forall i | 0 <= i < 3 ensures c[i] in States {
        assert c[i] == Rainy || c[i] == Sunny;
      }
    }
    ChainsMembership(States, 3, c);
    ChainsScorable(WeatherModel(), States, obs);
  }

  /** The joint probability of one three-day chain with Shop, Clean, Walk, multiplied out. */
  lemma JointWithShopCleanWalk(x: Condition, y: Condition, z: Condition)
    ensures var m, obs := WeatherModel(), [Shop, Clean, Walk];
      m.Scorable([x, y, z], obs) &&
      m.Joint([x, y, z], obs) ==
        (m.start.df[x] * m.transition.df[x].df[y] * m.transition.df[y].df[z])
        * (m.emission.df[x].df[Shop] * m.emission.df[y].df[Clean] * m.emission.df[z].df[Walk])
  {
    WeatherScorable([x, y, z], [Shop, Clean, Walk]);
    JointOfThree(WeatherModel(), [x, y, z], [Shop, Clean, Walk]);
  }

  /** The joint probability of one three-day chain with Clean, Clean, Clean, multiplied out. */
  lemma JointWithCleanCleanClean(x: Condition, y: Condition, z: Condition)
    ensures var m, obs := WeatherModel(), [Clean, Clean, Clean];
      m.Scorable([x, y, z], obs) &&
      m.Joint([x, y, z], obs) ==
        (m.start.df[x] * m.transition.df[x].df[y] * m.transition.df[y].df[z])
        * (m.emission.df[x].df[Clean] * m.emission.df[y].df[Clean] * m.emission.df[z].df[Clean])
  {
    WeatherScorable([x, y, z], [Clean, Clean, Clean]);
    JointOfThree(WeatherModel(), [x, y, z], [Clean, Clean, Clean]);
  }

  /** Rainy, Rainy, Rainy behind Shop, Clean, Walk: 0.6 * 0.7 * 0.7 * 0.4 * 0.5 * 0.1 = 0.00588. */
  lemma ShopCleanWalkRRR()
    ensures WeatherModel().Scorable([Rainy, Rainy, Rainy], [Shop, Clean, Walk])
    ensures WeatherModel().Joint([Rainy, Rainy, Rainy], [Shop, Clean, Walk]) == 0.00588
  {
    JointWithShopCleanWalk(Rainy, Rainy, Rainy);
  }

  /** Rainy, Rainy, Sunny behind Shop, Clean, Walk: 0.6 * 0.7 * 0.3 * 0.4 * 0.5 * 0.6 = 0.01512. */
  lemma ShopCleanWalkRRS()
    ensures WeatherModel().Scorable([Rainy, Rainy, Sunny], [Shop, Clean, Walk])
    ensures WeatherModel().Joint([Rainy, Rainy, Sunny], [Shop, Clean, Walk]) == 0.01512
  {
    JointWithShopCleanWalk(Rainy, Rainy, Sunny);
  }

  /** Rainy, Sunny, Rainy behind Shop, Clean, Walk: 0.6 * 0.3 * 0.4 * 0.4 * 0.1 * 0.1 = 0.000288. */
  lemma ShopCleanWalkRSR()
    ensures WeatherModel().Scorable([Rainy, Sunny, Rainy], [Shop, Clean, Walk])
    ensures WeatherModel().Joint([Rainy, Sunny, Rainy], [Shop, Clean, Walk]) == 0.000288
  {
    JointWithShopCleanWalk(Rainy, Sunny, Rainy);
  }

  /** Rainy, Sunny, Sunny behind Shop, Clean, Walk: 0.6 * 0.3 * 0.6 * 0.4 * 0.1 * 0.6 = 0.002592. */
  lemma ShopCleanWalkRSS()
    ensures WeatherModel().Scorable([Rainy, Sunny, Sunny], [Shop, Clean, Walk])
    ensures WeatherModel().Joint([Rainy, Sunny, Sunny], [Shop, Clean, Walk]) == 0.002592
  {
    JointWithShopCleanWalk(Rainy, Sunny, Sunny);
  }

  /** Sunny, Rainy, Rainy behind Shop, Clean, Walk: 0.4 * 0.4 * 0.7 * 0.3 * 0.5 * 0.1 = 0.00168. */
  lemma ShopCleanWalkSRR()
    ensures WeatherModel().Scorable([Sunny, Rainy, Rainy], [Shop, Clean, Walk])
    ensures WeatherModel().Joint([Sunny, Rainy, Rainy], [Shop, Clean, Walk]) == 0.00168
  {
    JointWithShopCleanWalk(Sunny, Rainy, Rainy);
  }

  /** Sunny, Rainy, Sunny behind Shop, Clean, Walk: 0.4 * 0.4 * 0.3 * 0.3 * 0.5 * 0.6 = 0.00432. */
  lemma ShopCleanWalkSRS()
    ensures WeatherModel().Scorable([Sunny, Rainy, Sunny], [Shop, Clean, Walk])
    ensures WeatherModel().Joint([Sunny, Rainy, Sunny], [Shop, Clean, Walk]) == 0.00432
  {
    JointWithShopCleanWalk(Sunny, Rainy, Sunny);
  }

  /** Sunny, Sunny, Rainy behind Shop, Clean, Walk: 0.4 * 0.6 * 0.4 * 0.3 * 0.1 * 0.1 = 0.000288. */
  lemma ShopCleanWalkSSR()
    ensures WeatherModel().Scorable([Sunny, Sunny, Rainy], [Shop, Clean, Walk])
    ensures WeatherModel().Joint([Sunny, Sunny, Rainy], [Shop, Clean, Walk]) == 0.000288
  {
    JointWithShopCleanWalk(Sunny, Sunny, Rainy);
  }

  /** Sunny, Sunny, Sunny behind Shop, Clean, Walk: 0.4 * 0.6 * 0.6 * 0.3 * 0.1 * 0.6 = 0.002592. */
  lemma ShopCleanWalkSSS()
    ensures WeatherModel().Scorable([Sunny, Sunny, Sunny], [Shop, Clean, Walk])
    ensures WeatherModel().Joint([Sunny, Sunny, Sunny], [Shop, Clean, Walk]) == 0.002592
  {
    JointWithShopCleanWalk(Sunny, Sunny, Sunny);
  }

  /** The joint probabilities of the eight three-day chains with Shop, Clean, Walk, in enumeration order. */
  lemma JointsShopCleanWalk()
    ensures WeatherModel().AllScorable(ThreeDays, [Shop, Clean, Walk])
    ensures var m, cs, obs := WeatherModel(), ThreeDays, [Shop, Clean, Walk];
      && m.Joint(cs[0], obs) == 0.00588 && m.Joint(cs[1], obs) == 0.01512
      && m.Joint(cs[2], obs) == 0.000288 && m.Joint(cs[3], obs) == 0.002592
      && m.Joint(cs[4], obs) == 0.00168 && m.Joint(cs[5], obs) == 0.00432
      && m.Joint(cs[6], obs) == 0.000288 && m.Joint(cs[7], obs) == 0.002592
  {
    ShopCleanWalkRRR();
    ShopCleanWalkRRS();
    ShopCleanWalkRSR();
    ShopCleanWalkRSS();
    ShopCleanWalkSRR();
    ShopCleanWalkSRS();
    ShopCleanWalkSSR();
    ShopCleanWalkSSS();
  }

  /** The most likely weather behind Shop, Clean, Walk is Rainy, Rainy, Sunny, with probability 0.01512. */
  lemma DecodeShopCleanWalk()
    ensures WeatherModel().AllScorable(Chains(States, 3), [Shop, Clean, Walk])
    ensures WeatherModel().Optimal(Chains(States, 3), [Shop, Clean, Walk]) == ([Rainy, Rainy, Sunny], 0.01512)
  {
    JointsShopCleanWalk();
    OptimalAt(WeatherModel(), ThreeDays, [Shop, Clean, Walk], 1);
    ChainsOfThree();
  }

  /** Rainy, Rainy, Rainy behind Clean, Clean, Clean: 0.6 * 0.7 * 0.7 * 0.5 * 0.5 * 0.5 = 0.03675. */
  lemma CleanCleanCleanRRR()
    ensures WeatherModel().Scorable([Rainy, Rainy, Rainy], [Clean, Clean, Clean])
    ensures WeatherModel().Joint([Rainy, Rainy, Rainy], [Clean, Clean, Clean]) == 0.03675
  {
    JointWithCleanCleanClean(Rainy, Rainy, Rainy);
  }

  /** Rainy, Rainy, Sunny behind Clean, Clean, Clean: 0.6 * 0.7 * 0.3 * 0.5 * 0.5 * 0.1 = 0.00315. */
  lemma CleanCleanCleanRRS()
    ensures WeatherModel().Scorable([Rainy, Rainy, Sunny], [Clean, Clean, Clean])
    ensures WeatherModel().Joint([Rainy, Rainy, Sunny], [Clean, Clean, Clean]) == 0.00315
  {
    JointWithCleanCleanClean(Rainy, Rainy, Sunny);
  }

  /** Rainy, Sunny, Rainy behind Clean, Clean, Clean: 0.6 * 0.3 * 0.4 * 0.5 * 0.1 * 0.5 = 0.0018. */
  lemma CleanCleanCleanRSR()
    ensures WeatherModel().Scorable([Rainy, Sunny, Rainy], [Clean, Clean, Clean])
    ensures WeatherModel().Joint([Rainy, Sunny, Rainy], [Clean, Clean, Clean]) == 0.0018
  {
    JointWithCleanCleanClean(Rainy, Sunny, Rainy);
  }

  /** Rainy, Sunny, Sunny behind Clean, Clean, Clean: 0.6 * 0.3 * 0.6 * 0.5 * 0.1 * 0.1 = 0.00054. */
  lemma CleanCleanCleanRSS()
    ensures WeatherModel().Scorable([Rainy, Sunny, Sunny], [Clean, Clean, Clean])
    ensures WeatherModel().Joint([Rainy, Sunny, Sunny], [Clean, Clean, Clean]) == 0.00054
  {
    JointWithCleanCleanClean(Rainy, Sunny, Sunny);
  }

  /** Sunny, Rainy, Rainy behind Clean, Clean, Clean: 0.4 * 0.4 * 0.7 * 0.1 * 0.5 * 0.5 = 0.0028. */
  lemma CleanCleanCleanSRR()
    ensures WeatherModel().Scorable([Sunny, Rainy, Rainy], [Clean, Clean, Clean])
    ensures WeatherModel().Joint([Sunny, Rainy, Rainy], [Clean, Clean, Clean]) == 0.0028
  {
    JointWithCleanCleanClean(Sunny, Rainy, Rainy);
  }

  /** Sunny, Rainy, Sunny behind Clean, Clean, Clean: 0.4 * 0.4 * 0.3 * 0.1 * 0.5 * 0.1 = 0.00024. */
  lemma CleanCleanCleanSRS()
    ensures WeatherModel().Scorable([Sunny, Rainy, Sunny], [Clean, Clean, Clean])
    ensures WeatherModel().Joint([Sunny, Rainy, Sunny], [Clean, Clean, Clean]) == 0.00024
  {
    JointWithCleanCleanClean(Sunny, Rainy, Sunny);
  }

  /** Sunny, Sunny, Rainy behind Clean, Clean, Clean: 0.4 * 0.6 * 0.4 * 0.1 * 0.1 * 0.5 = 0.00048. */
  lemma CleanCleanCleanSSR()
    ensures WeatherModel().Scorable([Sunny, Sunny, Rainy], [Clean, Clean, Clean])
    ensures WeatherModel().Joint([Sunny, Sunny, Rainy], [Clean, Clean, Clean]) == 0.00048
  {
    JointWithCleanCleanClean(Sunny, Sunny, Rainy);
  }

  /** Sunny, Sunny, Sunny behind Clean, Clean, Clean: 0.4 * 0.6 * 0.6 * 0.1 * 0.1 * 0.1 = 0.000144. */
  lemma CleanCleanCleanSSS()
    ensures WeatherModel().Scorable([Sunny, Sunny, Sunny], [Clean, Clean, Clean])
    ensures WeatherModel().Joint([Sunny, Sunny, Sunny], [Clean, Clean, Clean]) == 0.000144
  {
    JointWithCleanCleanClean(Sunny, Sunny, Sunny);
  }

  /** The joint probabilities of the eight three-day chains with Clean, Clean, Clean, in enumeration order. */
  lemma JointsCleanCleanClean()
    ensures WeatherModel().AllScorable(ThreeDays, [Clean, Clean, Clean])
    ensures var m, cs, obs := WeatherModel(), ThreeDays, [Clean, Clean, Clean];
      && m.Joint(cs[0], obs) == 0.03675 && m.Joint(cs[1], obs) == 0.00315
      && m.Joint(cs[2], obs) == 0.0018 && m.Joint(cs[3], obs) == 0.00054
      && m.Joint(cs[4], obs) == 0.0028 && m.Joint(cs[5], obs) == 0.00024
      && m.Joint(cs[6], obs) == 0.00048 && m.Joint(cs[7], obs) == 0.000144
  {
    CleanCleanCleanRRR();
    CleanCleanCleanRRS();
    CleanCleanCleanRSR();
    CleanCleanCleanRSS();
    CleanCleanCleanSRR();
    CleanCleanCleanSRS();
    CleanCleanCleanSSR();
    CleanCleanCleanSSS();
  }

  /** The most likely weather behind Clean, Clean, Clean is Rainy, Rainy, Rainy, with probability 0.03675. */
  lemma DecodeCleanCleanClean()
    ensures WeatherModel().AllScorable(Chains(States, 3), [Clean, Clean, Clean])
    ensures WeatherModel().Optimal(Chains(States, 3), [Clean, Clean, Clean]) == ([Rainy, Rainy, Rainy], 0.03675)
  {
    JointsCleanCleanClean();
    OptimalAt(WeatherModel(), ThreeDays, [Clean, Clean, Clean], 0);
    ChainsOfThree();
  }
}

/**
 * The demonstration program itself: the engine built from the weather tables,
 * asked for the two scores and the two decodings it reports.
 */
module WeatherReport {
  import opened Engine
  import opened Weather
  import opened WeatherDecode

  method Report() returns (walk: real, clean: real,
                           shopCleanWalk: (seq<Condition>, real), cleanCleanClean: (seq<Condition>, real))
    ensures walk == 0.30 && clean == 0.34
    ensures shopCleanWalk == ([Rainy, Rainy, Sunny], 0.01512)
    ensures cleanCleanClean == ([Rainy, Rainy, Rainy], 0.03675)
  {
    var hmm := new HiddenMarkovModel(TransitionMatrix(), EmissionMatrix(), StartVector());
    assert hmm.AsModel() == WeatherModel() && hmm.states == States;
    WeatherDefined([Walk]);
    WeatherDefined([Clean]);
    WeatherDefined([Shop, Clean, Walk]);
    WeatherDefined([Clean, Clean, Clean]);
    WalkScore();
    CleanScore();
    DecodeShopCleanWalk();
    DecodeCleanCleanClean();
    walk := hmm.GetProbability([Walk]);
    clean := hmm.GetProbability([Clean]);
    var sequence, probability := hmm.GetOptimalHiddenSequence([Shop, Clean, Walk]);
    shopCleanWalk := (sequence, probability);
    sequence, probability := hmm.GetOptimalHiddenSequence([Clean, Clean, Clean]);
    cleanCleanClean := (sequence, probability);
  }
}
