/**
  `groupby(key)[col].sum()`: one entry per distinct key, keys in ascending
  order (pandas sorts group keys by default), each holding the column sum of
  its rows. Built by accumulating the rows one at a time into a result kept
  ordered by key, so the accumulation and the key sort are one step.
 */
module Grouping {
  import opened Sales

  /** One entry of a grouped sum. */
  datatype Group = Group(key: int, total: real)

  predicate StrictlyAscending(gs: seq<Group>)
  {
    forall i, j :: 0 <= i < j < |gs| ==> gs[i].key < gs[j].key
  }

  /** The keys of a grouped result. */
  function KeysOf(gs: seq<Group>): set<int>
  {
    if gs == [] then {} else {gs[0].key} + KeysOf(gs[1..])
  }

  /** The key at every index is a key of the grouped result. */
  lemma {:induction false} KeysOfMember(gs: seq<Group>)
    ensures forall i :: 0 <= i < |gs| ==> gs[i].key in KeysOf(gs)
  {
    if gs != [] {
      KeysOfMember(gs[1..]);
      assert forall i :: 1 <= i < |gs| ==> gs[i] == gs[1..][i - 1];
    }
  }

  /** A key of a grouped result sits at some index. */
  lemma {:induction false} KeysOfIndex(gs: seq<Group>, k: int)
    requires k in KeysOf(gs)
    ensures exists i :: 0 <= i < |gs| && gs[i].key == k
  {
    if gs[0].key != k {
      KeysOfIndex(gs[1..], k);
      var i :| 0 <= i < |gs[1..]| && gs[1..][i].key == k;
      assert gs[i + 1].key == k;
    }
  }

  /** The sum of the totals of a grouped result. */
  function SumTotals(gs: seq<Group>): real
  {
    if gs == [] then 0.0 else gs[0].total + SumTotals(gs[1..])
  }

  /** The total that a grouped result holds for key `k`, zero when it has no entry for `k`. */
  function TotalFor(gs: seq<Group>, k: int): real
  {
    if gs == [] then 0.0 else if gs[0].key == k then gs[0].total else TotalFor(gs[1..], k)
  }

  /** In a result with ascending keys, the total held for an entry's key is that entry's total. */
  lemma {:induction false} TotalForAt(gs: seq<Group>, i: int)
    requires StrictlyAscending(gs) && 0 <= i < |gs|
    ensures TotalFor(gs, gs[i].key) == gs[i].total
  {
    if 0 < i {
      assert gs[0].key < gs[i].key;
      assert StrictlyAscending(gs[1..]);
      TotalForAt(gs[1..], i - 1);
    }
  }

  /** In a result with ascending keys, every entry's total is the total held for its key. */
  lemma TotalForAll(gs: seq<Group>)
    requires StrictlyAscending(gs)
    ensures forall i :: 0 <= i < |gs| ==> TotalFor(gs, gs[i].key) == gs[i].total
  {
    forall i | 0 <= i < |gs| ensures TotalFor(gs, gs[i].key) == gs[i].total {
      TotalForAt(gs, i);
    }
  }

  /** Every key after the first entry of an ascending result is above the first key. */
  lemma FirstKeyBelow(gs: seq<Group>)
    requires StrictlyAscending(gs) && gs != []
    ensures forall x :: x in KeysOf(gs[1..]) ==> gs[0].key < x
  {
    forall x | x in KeysOf(gs[1..]) ensures gs[0].key < x {
      KeysOfIndex(gs[1..], x);
      var j :| 0 <= j < |gs[1..]| && gs[1..][j].key == x;
      assert gs[0].key < gs[j + 1].key;
    }
  }

  /** Keys all above `a` sit above `a` at every index. */
  lemma KeysAbove(gs: seq<Group>, a: int)
    requires forall x :: x in KeysOf(gs) ==> a < x
    ensures forall i :: 0 <= i < |gs| ==> a < gs[i].key
  {
    KeysOfMember(gs);
  }

  /** A key below every key of an ascending result is not among its keys. */
  lemma {:induction false} BelowAllKeys(gs: seq<Group>, k: int)
    requires StrictlyAscending(gs) && gs != [] && k < gs[0].key
    ensures k !in KeysOf(gs)
    ensures TotalFor(gs, k) == 0.0
  {
    if |gs| > 1 {
      assert gs[0].key < gs[1].key;
      assert StrictlyAscending(gs[1..]);
      BelowAllKeys(gs[1..], k);
    }
  }

  /** One step of the accumulation: adds `v` to the entry of key `k`, or
      inserts a new entry for `k` where the ascending key order puts it. */
  function AddTo(gs: seq<Group>, k: int, v: real): (r: seq<Group>)
    requires StrictlyAscending(gs)
    ensures StrictlyAscending(r)
    ensures KeysOf(r) == KeysOf(gs) + {k}
    ensures |r| == if k in KeysOf(gs) then |gs| else |gs| + 1
    ensures forall x :: TotalFor(r, x) == (if x == k then v else 0.0) + TotalFor(gs, x)
  {
    if gs == [] then [Group(k, v)]
    else
      assert StrictlyAscending(gs[1..]);
      if k < gs[0].key then
        BelowAllKeys(gs, k);
        assert ([Group(k, v)] + gs)[1..] == gs;
        [Group(k, v)] + gs
      else if k == gs[0].key then
        var r := [Group(k, v + gs[0].total)] + gs[1..];
        assert r[1..] == gs[1..];
        assert gs[1..] != [] ==> k !in KeysOf(gs[1..]) by {
          if gs[1..] != [] {
            assert gs[0].key < gs[1].key;
            BelowAllKeys(gs[1..], k);
          }
        }
        assert forall x :: TotalFor(r, x) == (if x == k then v else 0.0) + TotalFor(gs, x);
        assert KeysOf(r) == KeysOf(gs) + {k} by {
          assert forall x :: x in KeysOf(r) <==> x in KeysOf(gs) + {k};
        }
        r
      else
        var rest := AddTo(gs[1..], k, v);
        var r := [gs[0]] + rest;
        assert r[1..] == rest;
        FirstKeyBelow(gs);
        KeysAbove(rest, gs[0].key);
        assert KeysOf(r) == KeysOf(gs) + {k} by {
          assert forall x :: x in KeysOf(r) <==> x in KeysOf(gs) + {k};
        }
        assert k in KeysOf(gs) <==> k in KeysOf(gs[1..]);
        r
  }

  /** `groupby(key)[col].sum()` over `rows`: the rows accumulated one by one
      into a result kept in ascending key order. */
  function GroupSum(rows: seq<Sale>, key: KeyColumn, col: ValueColumn): (gs: seq<Group>)
    ensures StrictlyAscending(gs)
    ensures KeysOf(gs) == Keys(rows, key)
    ensures |gs| == |Keys(rows, key)|
    ensures gs == [] <==> rows == []
    ensures forall k :: TotalFor(gs, k) == GroupTotal(rows, key, col, k)
    ensures forall i :: 0 <= i < |gs| ==> gs[i].total == GroupTotal(rows, key, col, gs[i].key)
  {
    if rows == [] then []
    else
      var rest := GroupSum(rows[1..], key, col);
      var k := KeyOf(rows[0], key);
      GroupTotalFirstRow(rows, key, col);
      KeysFirstRow(rows, key);
      var gs := AddTo(rest, k, ValueOf(rows[0], col));
      TotalForAll(gs);
      KeysOfMember(gs);
      gs
  }

  /** One accumulation step adds exactly its value to the sum of the totals. */
  lemma {:induction false} AddToSum(gs: seq<Group>, k: int, v: real)
    requires StrictlyAscending(gs)
    ensures SumTotals(AddTo(gs, k, v)) == v + SumTotals(gs)
  {
    if gs != [] && k > gs[0].key {
      assert StrictlyAscending(gs[1..]);
      AddToSum(gs[1..], k, v);
      assert AddTo(gs, k, v)[1..] == AddTo(gs[1..], k, v);
    } else if gs != [] && k == gs[0].key {
      assert AddTo(gs, k, v)[1..] == gs[1..];
    } else if gs != [] {
      assert AddTo(gs, k, v)[1..] == gs;
    }
  }

  /** The group totals add up to the column total: the pie chart's revenue
      shares sum to the total revenue KPI, the profit bars to the total profit. */
  lemma {:induction false} GroupSumsAddUp(rows: seq<Sale>, key: KeyColumn, col: ValueColumn)
    ensures SumTotals(GroupSum(rows, key, col)) == Total(rows, col)
  {
    if rows != [] {
      GroupSumsAddUp(rows[1..], key, col);
      AddToSum(GroupSum(rows[1..], key, col), KeyOf(rows[0], key), ValueOf(rows[0], col));
    }
  }
}
