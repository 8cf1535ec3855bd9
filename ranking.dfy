/**
  Ranking a grouped result: `sort_values(ascending=False).head(n)` with an
  explicit tie-break, and `idxmax` over a key-ordered grouped result.
 */
module Ranking {
  import opened Grouping

  /** `a` may stand before `b` on a leaderboard: the larger total first, and on
      equal totals the smaller key first. pandas leaves the order of equal
      totals unspecified; the ascending-key tie-break is this model's choice. */
  predicate Outranks(a: Group, b: Group)
  {
    a.total > b.total || (a.total == b.total && a.key <= b.key)
  }

  predicate Ranked(gs: seq<Group>)
  {
    forall i, j :: 0 <= i < j < |gs| ==> Outranks(gs[i], gs[j])
  }

  predicate DistinctKeys(gs: seq<Group>)
  {
    forall i, j :: 0 <= i < j < |gs| ==> gs[i].key != gs[j].key
  }

  /** Inserts `g` into a ranked list at the first place it outranks. */
  function Insert(g: Group, gs: seq<Group>): (r: seq<Group>)
    requires Ranked(gs)
    ensures Ranked(r)
    ensures |r| == |gs| + 1
    ensures forall x :: x in r <==> x == g || x in gs
    ensures DistinctKeys(gs) && (forall j :: 0 <= j < |gs| ==> gs[j].key != g.key) ==> DistinctKeys(r)
  {
    if gs == [] then [g]
    else if Outranks(g, gs[0]) then
      assert gs == [gs[0]] + gs[1..];
      [g] + gs
    else
      assert gs == [gs[0]] + gs[1..];
      var rest := Insert(g, gs[1..]);
      var r := [gs[0]] + rest;
      assert forall i :: 0 <= i < |rest| ==> Outranks(gs[0], rest[i]) by {
        forall i | 0 <= i < |rest| ensures Outranks(gs[0], rest[i]) {
          assert rest[i] in rest;
          if rest[i] != g {
            var j :| 0 <= j < |gs[1..]| && gs[1..][j] == rest[i];
            assert Outranks(gs[0], gs[j + 1]);
          }
        }
      }
      assert DistinctKeys(gs) && (forall j :: 0 <= j < |gs| ==> gs[j].key != g.key) ==>
        forall i :: 0 <= i < |rest| ==> gs[0].key != rest[i].key by {
        if DistinctKeys(gs) && (forall j :: 0 <= j < |gs| ==> gs[j].key != g.key) {
          forall i | 0 <= i < |rest| ensures gs[0].key != rest[i].key {
            assert rest[i] in rest;
            if rest[i] != g {
              var j :| 0 <= j < |gs[1..]| && gs[1..][j] == rest[i];
              assert gs[0].key != gs[j + 1].key;
            }
          }
        }
      }
      r
  }

  /** The groups sorted into leaderboard order: `sort_values(ascending=False)`. */
  function Rank(gs: seq<Group>): (r: seq<Group>)
    ensures Ranked(r)
    ensures |r| == |gs|
    ensures forall x :: x in r <==> x in gs
    ensures DistinctKeys(gs) ==> DistinctKeys(r)
  {
    if gs == [] then []
    else
      assert gs == [gs[0]] + gs[1..];
      var rest := Rank(gs[1..]);
      assert DistinctKeys(gs) ==> forall j :: 0 <= j < |rest| ==> rest[j].key != gs[0].key by {
        if DistinctKeys(gs) {
          forall j | 0 <= j < |rest| ensures rest[j].key != gs[0].key {
            assert rest[j] in rest;
            var i :| 0 <= i < |gs[1..]| && gs[1..][i] == rest[j];
            assert gs[0].key != gs[i + 1].key;
          }
        }
      }
      Insert(gs[0], rest)
  }

  lemma {:induction false} InsertPermutes(g: Group, gs: seq<Group>)
    requires Ranked(gs)
    ensures multiset(Insert(g, gs)) == multiset(gs) + multiset{g}
  {
    if gs != [] && !Outranks(g, gs[0]) {
      assert gs == [gs[0]] + gs[1..];
      InsertPermutes(g, gs[1..]);
    }
  }

  /** The ranking is a permutation of the groups. */
  lemma {:induction false} RankPermutes(gs: seq<Group>)
    ensures multiset(Rank(gs)) == multiset(gs)
  {
    if gs != [] {
      assert gs == [gs[0]] + gs[1..];
      RankPermutes(gs[1..]);
      InsertPermutes(gs[0], Rank(gs[1..]));
    }
  }

  /** `sort_values(ascending=False).head(n)`: the first `n` entries of the ranking. */
  function Top(gs: seq<Group>, n: nat): seq<Group>
  {
    var ranked := Rank(gs);
    ranked[..if n < |ranked| then n else |ranked|]
  }

  /** What a leaderboard promises: it has min(n, |gs|) entries, each one of the
      groups, in non-increasing order of total with ties by ascending key; and
      a group left out only when the board is full, and never ahead of its
      last entry. */
  lemma TopProperties(gs: seq<Group>, n: nat)
    requires DistinctKeys(gs)
    ensures var r := Top(gs, n);
      && |r| == (if n < |gs| then n else |gs|)
      && (forall i :: 0 <= i < |r| ==> r[i] in gs)
      && (forall i, j :: 0 <= i < j < |r| ==> r[i].total >= r[j].total)
      && (forall i, j :: 0 <= i < j < |r| && r[i].total == r[j].total ==> r[i].key < r[j].key)
      && (forall j :: 0 <= j < |gs| && gs[j] !in r ==> |r| == n && (0 < n ==> Outranks(r[n - 1], gs[j])))
  {
    var ranked := Rank(gs);
    var r := Top(gs, n);
    assert r == ranked[..|r|];
    forall i | 0 <= i < |r| ensures r[i] in gs {
      assert r[i] == ranked[i];
      assert ranked[i] in ranked;
    }
    forall i, j | 0 <= i < j < |r| && r[i].total == r[j].total ensures r[i].key < r[j].key {
      assert r[i] == ranked[i] && r[j] == ranked[j];
      assert Outranks(ranked[i], ranked[j]);
      assert ranked[i].key != ranked[j].key;
    }
    forall j | 0 <= j < |gs| && gs[j] !in r ensures |r| == n && (0 < n ==> Outranks(r[n - 1], gs[j])) {
      assert gs[j] in gs;
      var k :| 0 <= k < |ranked| && ranked[k] == gs[j];
      assert forall i :: 0 <= i < |r| ==> ranked[i] in r;
      assert |r| <= k;
      if 0 < n {
        assert r[n - 1] == ranked[n - 1];
        assert Outranks(ranked[n - 1], ranked[k]);
      }
    }
  }

  /** `idxmax`: the index of the first entry with the largest total. */
  function ArgMax(gs: seq<Group>): (i: nat)
    requires gs != []
    ensures i < |gs|
    ensures forall j :: 0 <= j < |gs| ==> gs[j].total <= gs[i].total
    ensures forall j :: 0 <= j < i ==> gs[j].total < gs[i].total
  {
    if |gs| == 1 then 0
    else
      var i := ArgMax(gs[..|gs| - 1]);
      assert forall j :: 0 <= j < |gs| - 1 ==> gs[..|gs| - 1][j] == gs[j];
      if gs[|gs| - 1].total > gs[i].total then |gs| - 1 else i
  }
}
