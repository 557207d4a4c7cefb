/** Totals of finite maps of sizes, in any order and any grouping. */
module Sums {
  import opened Ranks

  ghost function Total<K(!new)>(m: map<K, nat>): nat {
    if m == map[] then 0 else var k :| k in m; m[k] + Total(m - {k})
  }

  /** The order of summation does not matter. */
  lemma {:induction false} TotalWithout<K(!new)>(m: map<K, nat>, k: K)
    requires k in m
    ensures Total(m) == m[k] + Total(m - {k})
  {
    var j :| j in m && Total(m) == m[j] + Total(m - {j});
    if j != k {
      TotalWithout(m - {j}, k);
      TotalWithout(m - {k}, j);
      assert m - {j} - {k} == m - {k} - {j};
    }
  }

  /** SUM(...) over rows, by ascending primary key. */
  function Sum(m: map<nat, nat>): nat {
    if m == map[] then 0 else var k := Min(m.Keys); m[k] + Sum(m - {k})
  }

  lemma {:induction false} SumIsTotal(m: map<nat, nat>)
    ensures Sum(m) == Total(m)
  {
    if m != map[] {
      var k := Min(m.Keys);
      TotalWithout(m, k);
      SumIsTotal(m - {k});
    }
  }

  ghost predicate Injective<A(!new), B>(name: map<A, B>) {
    forall x, y :: x in name && y in name && name[x] == name[y] ==> x == y
  }

  /** `r` is `m` with its keys renamed one to one. */
  ghost predicate Renamed<A(!new), B(!new)>(m: map<A, nat>, name: map<A, B>, r: map<B, nat>) {
    && name.Keys == m.Keys && Injective(name)
    && (forall x :: x in m ==> name[x] in r && r[name[x]] == m[x])
    && (forall y :: y in r ==> exists x :: x in m && name[x] == y)
  }

  lemma RenamedWithout<A(!new), B(!new)>(m: map<A, nat>, name: map<A, B>, r: map<B, nat>, x: A)
    requires Renamed(m, name, r) && x in m
    ensures name[x] in r && r[name[x]] == m[x] && Renamed(m - {x}, name - {x}, r - {name[x]})
  {
    var m', name', r' := m - {x}, name - {x}, r - {name[x]};
    forall y | y in r' ensures exists z :: z in m' && name'[z] == y {
      var z :| z in m && name[z] == y;
      assert z in m' && name'[z] == y;
    }
  }

  /** The total does not change when the keys are renamed one to one. */
  lemma {:induction false} TotalRenamed<A(!new), B(!new)>(m: map<A, nat>, name: map<A, B>, r: map<B, nat>)
    requires Renamed(m, name, r)
    ensures Total(r) == Total(m)
    decreases |m|
  {
    if m == map[] {
      assert r == map[];
    } else {
      hide Total, Renamed;
      var x :| x in m;
      RenamedWithout(m, name, r, x);
      TotalWithout(m, x);
      TotalWithout(r, name[x]);
      TotalRenamed(m - {x}, name - {x}, r - {name[x]});
    }
  }

  /** The part of `m` in group `g`. */
  function Group<A, G(==)>(m: map<A, nat>, of: map<A, G>, g: G): map<A, nat>
    requires m.Keys <= of.Keys
  {
    map x | x in m && of[x] == g :: m[x]
  }

  ghost predicate TotalPerGroup<A(!new), G(!new)>(m: map<A, nat>, of: map<A, G>, totals: map<G, nat>)
    requires m.Keys <= of.Keys
  {
    && (forall x :: x in m ==> of[x] in totals)
    && (forall g :: g in totals ==> totals[g] == Total(Group(m, of, g)))
  }

  lemma GroupsWithout<A(!new), G(!new)>(m: map<A, nat>, of: map<A, G>, totals: map<G, nat>, x: A)
    requires m.Keys <= of.Keys && TotalPerGroup(m, of, totals) && x in m
    ensures of[x] in totals && totals[of[x]] >= m[x]
    ensures TotalPerGroup(m - {x}, of, totals[of[x] := totals[of[x]] - m[x]])
  {
    hide Total;
    var h := of[x];
    TotalWithout(Group(m, of, h), x);
    assert Group(m, of, h) - {x} == Group(m - {x}, of, h);
    forall g | g in totals && g != h ensures Group(m, of, g) == Group(m - {x}, of, g) {}
  }

  /** Summing group by group gives the same total. */
  lemma {:induction false} TotalGrouped<A(!new), G(!new)>(m: map<A, nat>, of: map<A, G>, totals: map<G, nat>)
    requires m.Keys <= of.Keys && TotalPerGroup(m, of, totals)
    ensures Total(totals) == Total(m)
    decreases |m|
  {
    hide Group, TotalPerGroup;
    if m == map[] {
      NoGroups(m, of, totals);
      TotalOfZeros(totals);
    } else {
      var x :| x in m;
      GroupsWithout(m, of, totals, x);
      TotalGrouped(m - {x}, of, totals[of[x] := totals[of[x]] - m[x]]);
      TotalWithout(m, x);
      TotalLowered(totals, of[x], m[x]);
    }
  }

  lemma TotalLowered<K(!new)>(m: map<K, nat>, k: K, n: nat)
    requires k in m && m[k] >= n
    ensures Total(m[k := m[k] - n]) == Total(m) - n
  {
    hide Total;
    TotalWithout(m, k);
    TotalWithout(m[k := m[k] - n], k);
    assert m[k := m[k] - n] - {k} == m - {k};
  }

  lemma NoGroups<A(!new), G(!new)>(m: map<A, nat>, of: map<A, G>, totals: map<G, nat>)
    requires m == map[] && TotalPerGroup(m, of, totals)
    ensures forall g :: g in totals ==> totals[g] == 0
  {
    forall g | g in totals ensures totals[g] == 0 {
      assert Group(m, of, g) == map[];
    }
  }

  lemma {:induction false} TotalOfZeros<K(!new)>(m: map<K, nat>)
    requires forall k :: k in m ==> m[k] == 0
    ensures Total(m) == 0
    decreases |m|
  {
    if m != map[] {
      var k :| k in m;
      TotalWithout(m, k);
      TotalOfZeros(m - {k});
    }
  }
}
