/** Sums of integer weights held in a finite map, and how they change when one entry does. */
module Sums {
  import opened Arithmetic

  ghost function Sum<K>(m: map<K, int>): int {
    if m == map[] then 0 else
      var k :| k in m;
      m[k] + Sum(m - {k})
  }

  /** The sum does not depend on which key is taken out first. */
  lemma {:induction false} SumTake<K>(m: map<K, int>, k: K)
    requires k in m
    ensures Sum(m) == m[k] + Sum(m - {k})
    decreases |m|
  {
    var j :| j in m && Sum(m) == m[j] + Sum(m - {j});
    if j != k {
      assert |m - {j}| < |m| by { SmallerWithout(m, j); }
      assert |m - {k}| < |m| by { SmallerWithout(m, k); }
      SumTake(m - {j}, k);
      SumTake(m - {k}, j);
      assert m - {j} - {k} == m - {k} - {j};
    }
  }

  lemma SmallerWithout<K, V>(m: map<K, V>, k: K)
    requires k in m
    ensures |m - {k}| == |m| - 1
  {
    assert (m - {k}).Keys == m.Keys - {k};
  }

  /** An entry's contribution; nothing for a missing one. */
  function At<K>(m: map<K, int>, k: K): int { if k in m then m[k] else 0 }

  /** Maps that differ at most in one entry have sums that differ by that entry. */
  lemma SumChange<K>(m: map<K, int>, m': map<K, int>, k: K)
    requires m - {k} == m' - {k}
    ensures Sum(m') == Sum(m) - At(m, k) + At(m', k)
  {
    SumWithout(m, k);
    SumWithout(m', k);
  }

  lemma SumWithout<K>(m: map<K, int>, k: K)
    ensures Sum(m) == At(m, k) + Sum(m - {k})
  {
    if k in m {
      SumTake(m, k);
    } else {
      assert m - {k} == m;
    }
  }

  /** Weights that are all in [0, bound] sum to something in [0, bound * size]. */
  lemma {:induction false} SumBounds<K>(m: map<K, int>, bound: nat)
    requires forall k :: k in m ==> 0 <= m[k] <= bound
    ensures 0 <= Sum(m) <= bound * |m|
    decreases |m|
  {
    if m != map[] {
      var k :| k in m;
      SumTake(m, k);
      SmallerWithout(m, k);
      SumBounds(m - {k}, bound);
      OneMore(bound, |m - {k}|);
    }
  }

  /** Adding two weightings entry by entry adds their sums. */
  lemma {:induction false} SumSplit<K>(m: map<K, int>, a: map<K, int>, b: map<K, int>)
    requires m.Keys == a.Keys == b.Keys
    requires forall k :: k in m ==> m[k] == a[k] + b[k]
    ensures Sum(m) == Sum(a) + Sum(b)
    decreases |m|
  {
    if m != map[] {
      var k :| k in m;
      SumTake(m, k);
      SumTake(a, k);
      SumTake(b, k);
      SmallerWithout(m, k);
      SumSplit(m - {k}, a - {k}, b - {k});
    }
  }

  /** Summing group by group gives the sum over all. */
  lemma {:induction false} SumGroups<K, G>(m: map<K, int>, group: map<K, G>, totals: map<G, int>)
    requires m.Keys == group.Keys && group.Values <= totals.Keys
    requires forall g :: g in totals ==> IsTotal(m, group, g, totals[g])
    ensures Sum(totals) == Sum(m)
    decreases |m|
  {
    if m == map[] {
      NoGroups(m, group, totals);
    } else {
      var k :| k in m;
      var g := group[k];
      assert g in group.Values;
      var totals' := totals[g := totals[g] - m[k]];
      forall h | h in totals' ensures IsTotal(m - {k}, group - {k}, h, totals'[h]) {
        assert IsTotal(m, group, h, totals[h]);
        SliceWithout(m, group, h, k);
      }
      SmallerWithout(m, k);
      GroupsWithout(group, k, totals.Keys);
      SumGroups(m - {k}, group - {k}, totals');
      OneTotal(totals, g, totals[g] - m[k]);
      SumTake(m, k);
    }
  }

  lemma NoGroups<K, G>(m: map<K, int>, group: map<K, G>, totals: map<G, int>)
    requires m == map[] && m.Keys == group.Keys
    requires forall g :: g in totals ==> IsTotal(m, group, g, totals[g])
    ensures Sum(totals) == 0
  {
    forall g | g in totals ensures totals[g] == 0 {
      assert IsTotal(m, group, g, totals[g]);
      assert Slice(m, group, g) == map[];
    }
    SumBounds(totals, 0);
  }

  lemma OneTotal<G>(totals: map<G, int>, g: G, v: int)
    requires g in totals
    ensures Sum(totals[g := v]) == Sum(totals) - totals[g] + v
  {
    assert totals - {g} == totals[g := v] - {g};
    SumChange(totals, totals[g := v], g);
  }

  ghost predicate IsTotal<K, G>(m: map<K, int>, group: map<K, G>, g: G, total: int)
    requires m.Keys == group.Keys
  {
    total == Sum(Slice(m, group, g))
  }

  lemma GroupsWithout<K, G>(group: map<K, G>, k: K, groups: set<G>)
    requires group.Values <= groups
    ensures (group - {k}).Values <= groups
  {
    forall g | g in (group - {k}).Values ensures g in groups {
      var j :| j in group - {k} && (group - {k})[j] == g;
      assert group[j] in group.Values;
    }
  }

  lemma SliceWithout<K, G>(m: map<K, int>, group: map<K, G>, g: G, k: K)
    requires m.Keys == group.Keys && k in m
    ensures (m - {k}).Keys == (group - {k}).Keys
    ensures Sum(Slice(m - {k}, group - {k}, g)) == Sum(Slice(m, group, g)) - (if group[k] == g then m[k] else 0)
  {
    SumWithout(Slice(m, group, g), k);
    assert Slice(m, group, g) - {k} == Slice(m - {k}, group - {k}, g);
  }

  /** The part of a weighting that belongs to one group. */
  ghost function Slice<K, G>(m: map<K, int>, group: map<K, G>, g: G): map<K, int>
    requires m.Keys == group.Keys
  {
    map k | k in m && group[k] == g :: m[k]
  }
}
