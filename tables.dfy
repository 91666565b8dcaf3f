/**
 * Probability tables of the HMM program: the `Vector` wrapper (a labelled
 * distribution) and the `Matrix` wrapper (a labelled collection of vectors).
 * Both store a dictionary together with the list of its keys in insertion
 * order, and neither is changed after construction, so both are values here:
 * one generic table type, instantiated with `real` weights for a vector and
 * with vectors for a matrix.
 */
module Tables {

  /** A dictionary as Python builds it from a literal: its entries in insertion order. */
  type Dict<K, V> = seq<(K, V)>

  /** The keys of a dictionary, in insertion order (`list(d.keys())`). */
  function Keys<K, V>(d: Dict<K, V>): seq<K>
  {
    seq(|d|, i requires 0 <= i < |d| => d[i].0)
  }

  predicate Distinct<K(==)>(s: seq<K>)
  {
    forall i, j :: 0 <= i < j < |s| ==> s[i] != s[j]
  }

  /** The labels a sequence lists. */
  function Elements<K>(s: seq<K>): set<K>
  {
    set i | 0 <= i < |s| :: s[i]
  }

  /** A dictionary holds each key once. */
  predicate IsDict<K(==), V>(d: Dict<K, V>)
  {
    Distinct(Keys(d))
  }

  /** Lookup view of a dictionary: a later entry for a key overrides an earlier one. */
  function ToMap<K(==), V>(d: Dict<K, V>): map<K, V>
  {
    if d == [] then map[] else ToMap(d[..|d| - 1])[d[|d| - 1].0 := d[|d| - 1].1]
  }

  lemma {:induction false} ToMapFacts<K, V>(d: Dict<K, V>)
    requires IsDict(d)
    ensures ToMap(d).Keys == Elements(Keys(d))
    ensures forall i :: 0 <= i < |d| ==> d[i].0 in ToMap(d) && ToMap(d)[d[i].0] == d[i].1
  {
    if d != [] {
      var p := d[..|d| - 1];
      assert Keys(p) == Keys(d)[..|d| - 1];
      ToMapFacts(p);
      var last := d[|d| - 1];
      forall i | 0 <= i < |d| ensures d[i].0 in ToMap(d) && ToMap(d)[d[i].0] == d[i].1 {
        if i < |d| - 1 {
          assert Keys(d)[i] != Keys(d)[|d| - 1];
          assert p[i] == d[i];
        }
      }
      assert Elements(Keys(d)) == Elements(Keys(p)) + {last.0} by {
        forall k | k in Elements(Keys(d)) ensures k in Elements(Keys(p)) + {last.0} {
          var i :| 0 <= i < |d| && Keys(d)[i] == k;
          if i < |d| - 1 { assert Keys(p)[i] == k; }
        }
        assert Keys(d)[|d| - 1] == last.0;
        forall k | k in Elements(Keys(p)) ensures k in Elements(Keys(d)) {
          var i :| 0 <= i < |p| && Keys(p)[i] == k;
          assert Keys(d)[i] == k;
        }
      }
    }
  }

  /**
   * A table: `states` is the key list and `df` the dictionary it was built
   * from. The source names both fields this way for vectors and matrices alike.
   */
  datatype Table<K, V> = Table(states: seq<K>, df: map<K, V>)
  {
    /** What construction from a dictionary guarantees: each key listed once, and exactly the keys of `df`. */
    predicate Valid()
    {
      Distinct(states) && df.Keys == Elements(states)
    }
  }

  /** A labelled distribution: label to weight. */
  type Vector<K> = Table<K, real>

  /** A labelled collection of distributions: label to vector. */
  type Matrix<K, L> = Table<K, Vector<L>>

  /**
   * Construction of a `Vector` or a `Matrix` from a dictionary: the key list is
   * the dictionary's keys in insertion order, and each key looks up the value
   * it was given.
   */
  function FromDict<K(==), V>(probabilities: Dict<K, V>): (t: Table<K, V>)
    requires IsDict(probabilities)
    ensures t.Valid()
    ensures |t.states| == |probabilities|
    ensures forall i :: 0 <= i < |probabilities| ==>
              t.states[i] == probabilities[i].0 && t.df[probabilities[i].0] == probabilities[i].1
  {
    ToMapFacts(probabilities);
    var t := Table(Keys(probabilities), ToMap(probabilities));
    t
  }

  /** The entries of a table in key-list order: the dictionary it stands for. */
  function Entries<K(==), V>(t: Table<K, V>): Dict<K, V>
    requires t.Valid()
  {
    seq(|t.states|, i requires 0 <= i < |t.states| => (t.states[i], t.df[t.states[i]]))
  }

  /** Building a table from a dictionary keeps the dictionary, entry for entry and in order. */
  lemma FromDictEntries<K, V>(probabilities: Dict<K, V>)
    requires IsDict(probabilities)
    ensures Entries(FromDict(probabilities)) == probabilities
  {
    var t := FromDict(probabilities);
    assert |Entries(t)| == |probabilities|;
    forall i | 0 <= i < |probabilities| ensures Entries(t)[i] == probabilities[i] {
      assert t.states[i] == probabilities[i].0;
    }
  }

  /** Every valid table is the one built from its own entries. */
  lemma {:induction false} EntriesFromDict<K, V>(t: Table<K, V>)
    requires t.Valid()
    ensures IsDict(Entries(t)) && FromDict(Entries(t)) == t
  {
    var d := Entries(t);
    assert Keys(d) == t.states;
    var u := FromDict(d);
    assert u.states == t.states;
    forall k | k in u.df ensures k in t.df && u.df[k] == t.df[k] {
      var i :| 0 <= i < |t.states| && t.states[i] == k;
      assert d[i].0 == k;
    }
    assert u.df == t.df;
  }
}
