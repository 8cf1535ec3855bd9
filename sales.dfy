/**
  The sales table and the column-wise operations the dashboard applies to it:
  selecting rows by a closed time interval, selecting rows by a key, the set
  of distinct keys, and column sums.
 */
module Sales {

  /** One row of the cleaned sales table. `saleDate` counts seconds from
      1970-01-01 00:00 (naive local time, as pandas parses it). */
  datatype Sale = Sale(
    saleDate: int,
    productId: int,
    customerId: int,
    quantity: int,
    revenue: real,
    profitMargin: real)

  /** The columns the dashboard groups by. */
  datatype KeyColumn = ProductId | CustomerId

  /** The numeric columns the dashboard sums. */
  datatype ValueColumn = Quantity | Revenue | ProfitMargin

  function KeyOf(s: Sale, key: KeyColumn): int
  {
    match key
    case ProductId => s.productId
    case CustomerId => s.customerId
  }

  function ValueOf(s: Sale, col: ValueColumn): real
  {
    match col
    case Quantity => s.quantity as real
    case Revenue => s.revenue
    case ProfitMargin => s.profitMargin
  }

  predicate InInterval(s: Sale, lo: int, hi: int)
  {
    lo <= s.saleDate && s.saleDate <= hi
  }

  /** The boolean-mask selection `lo <= sale_date <= hi` (also `Series.between`,
      which includes both ends): the rows in the interval, in input order. */
  function Between(rows: seq<Sale>, lo: int, hi: int): (r: seq<Sale>)
    ensures forall s :: s in r <==> s in rows && InInterval(s, lo, hi)
    ensures forall s :: multiset(r)[s] == if InInterval(s, lo, hi) then multiset(rows)[s] else 0
    ensures |r| <= |rows|
  {
    if rows == [] then []
    else
      assert rows == [rows[0]] + rows[1..];
      var rest := Between(rows[1..], lo, hi);
      if InInterval(rows[0], lo, hi) then [rows[0]] + rest else rest
  }

  /** Selection commutes with concatenation: together with the one-row case
      this says the rows keep their input order. */
  lemma {:induction false} BetweenAppend(a: seq<Sale>, b: seq<Sale>, lo: int, hi: int)
    ensures Between(a + b, lo, hi) == Between(a, lo, hi) + Between(b, lo, hi)
  {
    if a == [] {
      assert a + b == b;
    } else {
      assert (a + b)[0] == a[0] && (a + b)[1..] == a[1..] + b;
      BetweenAppend(a[1..], b, lo, hi);
    }
  }

  /** Selecting a window from an already selected range is one selection by
      the intersection of the two intervals. */
  lemma {:induction false} BetweenTwice(rows: seq<Sale>, a: int, b: int, c: int, d: int)
    ensures Between(Between(rows, a, b), c, d)
         == Between(rows, if a < c then c else a, if b < d then b else d)
  {
    if rows != [] {
      BetweenTwice(rows[1..], a, b, c, d);
    }
  }

  /** The rows whose key column equals `k`, in input order. */
  function Select(rows: seq<Sale>, key: KeyColumn, k: int): (r: seq<Sale>)
    ensures forall s :: s in r <==> s in rows && KeyOf(s, key) == k
    ensures |r| <= |rows|
  {
    if rows == [] then []
    else
      var rest := Select(rows[1..], key, k);
      if KeyOf(rows[0], key) == k then [rows[0]] + rest else rest
  }

  /** The rows of key `k` keep their multiplicity: every row of the group
      counts as often as it occurs in the table, and no other row counts. */
  lemma {:induction false} SelectCounts(rows: seq<Sale>, key: KeyColumn, k: int)
    ensures forall s :: multiset(Select(rows, key, k))[s] == if KeyOf(s, key) == k then multiset(rows)[s] else 0
  {
    if rows != [] {
      assert rows == [rows[0]] + rows[1..];
      SelectCounts(rows[1..], key, k);
    }
  }

  /** The distinct values of a key column. */
  function Keys(rows: seq<Sale>, key: KeyColumn): set<int>
  {
    if rows == [] then {} else {KeyOf(rows[0], key)} + Keys(rows[1..], key)
  }

  /** `Keys` holds exactly the key values that occur in some row. */
  lemma {:induction false} KeysOccur(rows: seq<Sale>, key: KeyColumn, k: int)
    ensures k in Keys(rows, key) <==> exists s :: s in rows && KeyOf(s, key) == k
  {
    if rows != [] {
      KeysOccur(rows[1..], key, k);
      assert forall s :: s in rows <==> s == rows[0] || s in rows[1..] by {
        assert rows == [rows[0]] + rows[1..];
      }
    }
  }

  /** The first row adds its key to the keys of the rest, one more key exactly when it is new. */
  lemma KeysFirstRow(rows: seq<Sale>, key: KeyColumn)
    requires rows != []
    ensures |Keys(rows, key)| == if KeyOf(rows[0], key) in Keys(rows[1..], key) then |Keys(rows[1..], key)| else |Keys(rows[1..], key)| + 1
  {
    if KeyOf(rows[0], key) in Keys(rows[1..], key) {
      assert Keys(rows, key) == Keys(rows[1..], key) by {
        assert forall x :: x in Keys(rows, key) <==> x in Keys(rows[1..], key);
      }
    }
  }

  /** The `.sum()` of a numeric column. */
  function Total(rows: seq<Sale>, col: ValueColumn): real
  {
    if rows == [] then 0.0 else ValueOf(rows[0], col) + Total(rows[1..], col)
  }

  /** Column sums add up over a split of the rows. */
  lemma {:induction false} TotalAppend(a: seq<Sale>, b: seq<Sale>, col: ValueColumn)
    ensures Total(a + b, col) == Total(a, col) + Total(b, col)
  {
    if a == [] {
      assert a + b == b;
    } else {
      assert (a + b)[0] == a[0] && (a + b)[1..] == a[1..] + b;
      TotalAppend(a[1..], b, col);
    }
  }

  /** The sum of `col` over the rows whose key is `k`: what one entry of a
      `groupby(key)[col].sum()` holds. */
  function GroupTotal(rows: seq<Sale>, key: KeyColumn, col: ValueColumn, k: int): real
  {
    Total(Select(rows, key, k), col)
  }

  /** Splitting off the first row of the table. */
  lemma GroupTotalFirstRow(rows: seq<Sale>, key: KeyColumn, col: ValueColumn)
    requires rows != []
    ensures forall k ::
      GroupTotal(rows, key, col, k)
      == (if KeyOf(rows[0], key) == k then ValueOf(rows[0], col) else 0.0) + GroupTotal(rows[1..], key, col, k)
  {
    forall k ensures GroupTotal(rows, key, col, k)
      == (if KeyOf(rows[0], key) == k then ValueOf(rows[0], col) else 0.0) + GroupTotal(rows[1..], key, col, k)
    {
      var rest := Select(rows[1..], key, k);
      if KeyOf(rows[0], key) == k {
        assert Select(rows, key, k) == [rows[0]] + rest;
        assert ([rows[0]] + rest)[1..] == rest;
      } else {
        assert Select(rows, key, k) == rest;
      }
    }
  }

  /** A key that does not occur has an empty group. */
  lemma {:induction false} GroupTotalAbsent(rows: seq<Sale>, key: KeyColumn, col: ValueColumn, k: int)
    requires k !in Keys(rows, key)
    ensures GroupTotal(rows, key, col, k) == 0.0
  {
    if rows != [] {
      GroupTotalAbsent(rows[1..], key, col, k);
    }
  }
}
