/** `ORDER BY uid`: the ascending list of a set of UIDs, and ranks in it (message sequence numbers). */
module Ranks {

  predicate IsMin(s: set<nat>, m: nat) { m in s && forall x :: x in s ==> m <= x }

  lemma Member(s: set<nat>) returns (y: nat)
    requires s != {}
    ensures y in s
  {
    y :| y in s;
  }

  lemma {:induction false} HasMin(s: set<nat>)
    requires s != {}
    ensures exists m :: IsMin(s, m)
  {
    var y := Member(s);
    if s == {y} {
      assert IsMin(s, y);
    } else {
      HasMin(s - {y});
      var m :| IsMin(s - {y}, m);
      assert forall x :: x in s && x != y ==> x in s - {y};
      assert IsMin(s, if m <= y then m else y);
    }
  }

  function Min(s: set<nat>): (m: nat)
    requires s != {}
    ensures IsMin(s, m)
  {
    HasMin(s);
    var m :| IsMin(s, m); m
  }

  predicate Ascending(r: seq<nat>) { forall i, j :: 0 <= i < j < |r| ==> r[i] < r[j] }

  function Members(r: seq<nat>): set<nat> { set x | x in r }

  function Sorted(s: set<nat>): (r: seq<nat>)
    ensures Ascending(r) && Members(r) == s && |r| == |s|
  {
    if s == {} then []
    else
      var m := Min(s);
      var rest := Sorted(s - {m});
      MinFirst(s, m, rest);
      [m] + rest
  }

  lemma MinFirst(s: set<nat>, m: nat, rest: seq<nat>)
    requires IsMin(s, m) && Ascending(rest) && Members(rest) == s - {m}
    ensures Ascending([m] + rest) && Members([m] + rest) == s
  {
    forall i | 0 <= i < |rest| ensures m < rest[i] {
      assert rest[i] in Members(rest);
    }
    forall x ensures x in Members([m] + rest) <==> x in s {
      assert x in [m] + rest <==> x == m || x in rest;
      assert x in Members(rest) <==> x in s - {m};
    }
  }

  /** Members below `u`. */
  function Below(s: set<nat>, u: nat): set<nat> { set x | x in s && x < u }

  /** The sequence number of UID `u`: one more than the number of smaller UIDs. */
  function Rank(s: set<nat>, u: nat): nat { |Below(s, u)| + 1 }

  /** An ascending list has at position i the element with i smaller ones. */
  lemma {:induction false} AscendingRank(r: seq<nat>, i: nat)
    requires i < |r| && Ascending(r)
    ensures |Below(Members(r), r[i])| == i
  {
    if i == 0 {
      assert Below(Members(r), r[i]) == {};
    } else {
      AscendingRank(r, i - 1);
      assert Below(Members(r), r[i]) == Below(Members(r), r[i - 1]) + {r[i - 1]};
    }
  }

  /** Sequence numbers and positions in the ascending list are the same thing. */
  lemma RankIsPosition(s: set<nat>, u: nat)
    requires u in s
    ensures 1 <= Rank(s, u) <= |s| && Sorted(s)[Rank(s, u) - 1] == u
  {
    var r := Sorted(s);
    assert u in Members(r);
    var i :| 0 <= i < |r| && r[i] == u;
    AscendingRank(r, i);
  }

  lemma PositionHasRank(s: set<nat>, i: nat)
    requires 1 <= i <= |s|
    ensures Sorted(s)[i - 1] in s && Rank(s, Sorted(s)[i - 1]) == i
  {
    hide Sorted;
    var r := Sorted(s);
    assert r[i - 1] in Members(r);
    AscendingRank(r, i - 1);
  }

  /** Removing UIDs lowers each survivor's sequence number by the number of removed smaller ones
      (RFC 3501, section 2.3.1.2). */
  lemma RankAfterRemoval(s: set<nat>, gone: set<nat>, u: nat)
    requires u in s && u !in gone
    ensures Rank(s - gone, u) == Rank(s, u) - |Below(s * gone, u)|
  {
    assert Below(s, u) == Below(s - gone, u) + Below(s * gone, u);
    assert Below(s - gone, u) !! Below(s * gone, u);
  }
}
