/**
 * The enumeration of hidden-state chains: `itertools.product(states, repeat=n)`,
 * which both engine operations walk. The definition follows the library's own
 * description of `product`: start from the single empty tuple and, once per
 * repetition, extend every tuple so far by every element of the pool, the new
 * element varying fastest.
 */
module Product {
  import opened Tables

  function Pow(b: nat, e: nat): nat
  {
    if e == 0 then 1 else b * Pow(b, e - 1)
  }

  /** `[x + [y] for x in prefixes for y in pool]`. */
  function Extend<S>(prefixes: seq<seq<S>>, pool: seq<S>): (r: seq<seq<S>>)
    ensures |r| == |prefixes| * |pool|
  {
    if prefixes == [] then []
    else
      var tail := Extend(prefixes[1..], pool);
      assert |prefixes| * |pool| == |pool| + (|prefixes| - 1) * |pool|;
      seq(|pool|, j requires 0 <= j < |pool| => prefixes[0] + [pool[j]]) + tail
  }

  /** The chains of length `n` over `states`, in the order `product(states, repeat=n)` yields them: |states|^n of them. */
  function Chains<S>(states: seq<S>, n: nat): (r: seq<seq<S>>)
    ensures |r| == Pow(|states|, n)
  {
    if n == 0 then [[]] else Extend(Chains(states, n - 1), states)
  }

  /** A chain of length `n` every element of which is drawn from `states`. */
  ghost predicate IsChain<S>(states: seq<S>, n: nat, c: seq<S>)
  {
    |c| == n && forall i :: 0 <= i < n ==> c[i] in states
  }

  lemma {:induction false} MulMono(a: nat, b: nat, m: nat)
    requires a <= b
    ensures a * m <= b * m
  {
    if a < b {
      MulMono(a, b - 1, m);
      assert b * m == (b - 1) * m + m;
    }
  }

  /** Element `q * |pool| + r` of `Extend(prefixes, pool)` is prefix `q` extended by pool element `r`. */
  lemma {:induction false} ExtendAt<S>(prefixes: seq<seq<S>>, pool: seq<S>, q: nat, r: nat)
    requires q < |prefixes| && r < |pool|
    ensures q * |pool| + r < |Extend(prefixes, pool)|
    ensures Extend(prefixes, pool)[q * |pool| + r] == prefixes[q] + [pool[r]]
  {
    var m := |pool|;
    var head := seq(m, j requires 0 <= j < m => prefixes[0] + [pool[j]]);
    assert Extend(prefixes, pool) == head + Extend(prefixes[1..], pool);
    if q > 0 {
      ExtendAt(prefixes[1..], pool, q - 1, r);
      assert q * m + r == m + ((q - 1) * m + r);
    }
  }

  /** Euclidean division of an index below `p * m` by `m`. */
  lemma DivBound(k: nat, p: nat, m: nat)
    requires k < p * m
    ensures m > 0 && 0 <= k / m < p && k == (k / m) * m + k % m && 0 <= k % m < m
  {
    var q := k / m;
    assert k == q * m + k % m;
    if q >= p {
      MulMono(p, q, m);
    }
  }

  /** Element `k` of `Extend(prefixes, pool)`: prefix `k / |pool|` extended by pool element `k % |pool|`. */
  lemma ExtendAtIndex<S>(prefixes: seq<seq<S>>, pool: seq<S>, k: nat)
    requires k < |Extend(prefixes, pool)|
    ensures |pool| > 0 && 0 <= k / |pool| < |prefixes| && 0 <= k % |pool| && k == (k / |pool|) * |pool| + k % |pool|
    ensures Extend(prefixes, pool)[k] == prefixes[k / |pool|] + [pool[k % |pool|]]
  {
    var m := |pool|;
    DivBound(k, |prefixes|, m);
    var q, r := k / m, k % m;
    ExtendAt(prefixes, pool, q, r);
    assert Extend(prefixes, pool)[q * m + r] == prefixes[q] + [pool[r]];
  }

  /** `Extend` holds exactly the one-longer chains whose prefix is listed and whose last element is in the pool. */
  lemma {:induction false} ExtendMembership<S>(prefixes: seq<seq<S>>, pool: seq<S>, c: seq<S>)
    ensures c in Extend(prefixes, pool) <==> c != [] && c[..|c| - 1] in prefixes && c[|c| - 1] in pool
  {
    if prefixes != [] {
      ExtendMembership(prefixes[1..], pool, c);
      var head := seq(|pool|, j requires 0 <= j < |pool| => prefixes[0] + [pool[j]]);
      assert Extend(prefixes, pool) == head + Extend(prefixes[1..], pool);
      if c in head {
        var j :| 0 <= j < |pool| && head[j] == c;
        assert c[..|c| - 1] == prefixes[0];
      }
      if c != [] && c[..|c| - 1] == prefixes[0] && c[|c| - 1] in pool {
        var j :| 0 <= j < |pool| && pool[j] == c[|c| - 1];
        assert head[j] == c;
      }
      assert forall x :: x in prefixes <==> x == prefixes[0] || x in prefixes[1..];
    }
  }

  /** The enumerated chains are exactly the chains of length `n` over `states`: each has that shape, and none is missed. */
  lemma {:induction false} ChainsMembership<S>(states: seq<S>, n: nat, c: seq<S>)
    ensures c in Chains(states, n) <==> IsChain(states, n, c)
  {
    if n == 0 {
      assert c in Chains(states, n) <==> c == [];
    } else {
      ExtendMembership(Chains(states, n - 1), states, c);
      if c != [] {
        ChainsMembership(states, n - 1, c[..|c| - 1]);
        if IsChain(states, n, c) {
          assert IsChain(states, n - 1, c[..|c| - 1]);
        }
        if IsChain(states, n - 1, c[..|c| - 1]) && c[|c| - 1] in states {
          assert forall i :: 0 <= i < |c| - 1 ==> c[i] == c[..|c| - 1][i];
        }
      }
    }
  }

  /** Position of a label in the list of states (|states| when absent). */
  function IndexOf<S(==)>(states: seq<S>, s: S): (r: nat)
    ensures r <= |states|
    ensures r < |states| ==> states[r] == s
    ensures forall j :: 0 <= j < r ==> states[j] != s
  {
    if states == [] then 0
    else if states[0] == s then 0
    else 1 + IndexOf(states[1..], s)
  }

  /** `a` comes before `b` in lexicographic order, labels compared by their place in `states`. */
  ghost predicate LexLess<S>(states: seq<S>, a: seq<S>, b: seq<S>)
  {
    exists p :: 0 <= p < |a| && p < |b| && a[..p] == b[..p] && IndexOf(states, a[p]) < IndexOf(states, b[p])
  }

  /**
   * The chain read as a number in base |states|, most significant element
   * first, each element standing for its index in `states`.
   */
  function Rank<S(==)>(states: seq<S>, c: seq<S>): nat
  {
    if c == [] then 0 else Rank(states, c[..|c| - 1]) * |states| + IndexOf(states, c[|c| - 1])
  }

  /** Element `k` of the enumeration is `k` written in base |states|, most significant digit first. */
  lemma {:induction false} ChainsRank<S>(states: seq<S>, n: nat, k: nat)
    requires Distinct(states)
    requires k < |Chains(states, n)|
    ensures Rank(states, Chains(states, n)[k]) == k
  {
    if n > 0 {
      var m := |states|;
      var prev := Chains(states, n - 1);
      ExtendAtIndex(prev, states, k);
      var q, r := k / m, k % m;
      ChainsRank(states, n - 1, q);
      var c := Chains(states, n)[k];
      assert c == prev[q] + [states[r]];
      assert c[..|c| - 1] == prev[q];
      assert IndexOf(states, c[|c| - 1]) == r;
      assert Rank(states, c) == Rank(states, prev[q]) * m + r;
    }
  }

  lemma MulCancel(a: nat, b: nat, m: nat)
    requires a * m < b * m
    ensures a < b
  {
    if b <= a {
      MulMono(b, a, m);
    }
  }

  /** Comparing two indices by quotient first and remainder second agrees with comparing the indices. */
  lemma DivOrder(i: nat, j: nat, m: nat)
    requires i < j && m > 0
    ensures i / m < j / m || (i / m == j / m && i % m < j % m)
  {
    var qi, qj := i / m, j / m;
    assert i == qi * m + i % m && j == qj * m + j % m;
    assert (qj + 1) * m == qj * m + m;
    MulCancel(qi, qj + 1, m);
  }

  lemma IndexOfDistinct<S>(states: seq<S>, r: nat)
    requires Distinct(states) && r < |states|
    ensures IndexOf(states, states[r]) == r
  {
  }

  lemma LexExtendPrefix<S>(states: seq<S>, x: seq<S>, y: seq<S>, u: S, v: S)
    requires LexLess(states, x, y)
    ensures LexLess(states, x + [u], y + [v])
  {
    var p :| 0 <= p < |x| && p < |y| && x[..p] == y[..p] && IndexOf(states, x[p]) < IndexOf(states, y[p]);
    assert (x + [u])[..p] == x[..p] && (y + [v])[..p] == y[..p];
    assert (x + [u])[p] == x[p] && (y + [v])[p] == y[p];
  }

  lemma LexExtendLast<S>(states: seq<S>, x: seq<S>, u: S, v: S)
    requires IndexOf(states, u) < IndexOf(states, v)
    ensures LexLess(states, x + [u], x + [v])
  {
    var p := |x|;
    assert (x + [u])[..p] == x == (x + [v])[..p];
    assert (x + [u])[p] == u && (x + [v])[p] == v;
  }

  /** The enumeration is strictly increasing in lexicographic order, labels ordered as in `states`. */
  lemma {:induction false} ChainsLexOrdered<S>(states: seq<S>, n: nat, i: nat, j: nat)
    requires Distinct(states)
    requires i < j < |Chains(states, n)|
    ensures LexLess(states, Chains(states, n)[i], Chains(states, n)[j])
  {
    var m := |states|;
    var prev := Chains(states, n - 1);
    var qi, ri, qj, rj := i / m, i % m, j / m, j % m;
    ExtendAtIndex(prev, states, i);
    ExtendAtIndex(prev, states, j);
    DivOrder(i, j, m);
    IndexOfDistinct(states, ri);
    IndexOfDistinct(states, rj);
    if qi < qj {
      ChainsLexOrdered(states, n - 1, qi, qj);
      LexExtendPrefix(states, prev[qi], prev[qj], states[ri], states[rj]);
    } else {
      LexExtendLast(states, prev[qi], states[ri], states[rj]);
    }
  }

  /** Over a single state there is exactly one chain of each length: that state repeated. */
  lemma {:induction false} SingleStateChains<S>(s: S, n: nat)
    ensures Chains([s], n) == [seq(n, _ => s)]
  {
    if n == 0 {
      assert seq(0, _ => s) == [];
    } else {
      SingleStateChains(s, n - 1);
      var prev := seq(n - 1, _ => s);
      assert Chains([s], n) == Extend([prev], [s]);
      assert Extend([prev], [s]) == [prev + [s]] + Extend([prev][1..], [s]);
      assert [prev][1..] == [];
      assert prev + [s] == seq(n, _ => s);
    }
  }
}
