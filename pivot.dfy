/**
 * Replacing the rows a pivot table holds for one owner, as the repositories do inside a
 * transaction: delete the owner's rows, then insert the new ones after the rows kept.
 */
module Pivot {

  /** The rows `keep` accepts, in table order. */
  function Filter<T>(rows: seq<T>, keep: T -> bool): (r: seq<T>)
    ensures |r| <= |rows|
  {
    if rows == [] then []
    else if keep(rows[0]) then [rows[0]] + Filter(rows[1..], keep)
    else Filter(rows[1..], keep)
  }

  /** The rows kept are rows of the table that `keep` accepts, and every such row is kept. */
  lemma {:induction false} FilterSelects<T>(rows: seq<T>, keep: T -> bool)
    ensures forall i :: 0 <= i < |Filter(rows, keep)| ==> Filter(rows, keep)[i] in rows && keep(Filter(rows, keep)[i])
    ensures forall i :: 0 <= i < |rows| && keep(rows[i]) ==> rows[i] in Filter(rows, keep)
  {
    if rows != [] {
      FilterSelects(rows[1..], keep);
      forall i | 1 <= i < |rows| ensures rows[i] == rows[1..][i - 1] { }
    }
  }

  /** DELETE the rows `keep` refuses, then INSERT `added`. */
  function Replace<T>(rows: seq<T>, keep: T -> bool, added: seq<T>): seq<T> {
    Filter(rows, keep) + added
  }

  lemma {:induction false} FilterAppend<T>(a: seq<T>, b: seq<T>, keep: T -> bool)
    ensures Filter(a + b, keep) == Filter(a, keep) + Filter(b, keep)
  {
    if a != [] {
      assert (a + b)[1..] == a[1..] + b;
      FilterAppend(a[1..], b, keep);
    } else {
      assert a + b == b;
    }
  }

  lemma {:induction false} FilterAll<T>(rows: seq<T>, keep: T -> bool)
    requires forall i :: 0 <= i < |rows| ==> keep(rows[i])
    ensures Filter(rows, keep) == rows
  {
    if rows != [] {
      FilterAll(rows[1..], keep);
      assert [rows[0]] + rows[1..] == rows;
    }
  }

  lemma {:induction false} FilterNone<T>(rows: seq<T>, keep: T -> bool)
    requires forall i :: 0 <= i < |rows| ==> !keep(rows[i])
    ensures Filter(rows, keep) == []
  {
    if rows != [] {
      FilterNone(rows[1..], keep);
    }
  }

  lemma {:induction false} FilterTwice<T>(rows: seq<T>, keep: T -> bool)
    ensures Filter(Filter(rows, keep), keep) == Filter(rows, keep)
  {
    if rows != [] {
      FilterTwice(rows[1..], keep);
      if keep(rows[0]) {
        assert ([rows[0]] + Filter(rows[1..], keep))[1..] == Filter(rows[1..], keep);
      }
    }
  }

  /**
   * After the replace, the owner's rows (those `keep` refuses) are exactly the new ones, in
   * order, and every other row is as it was, in order.
   */
  lemma ReplaceSelects<T>(rows: seq<T>, keep: T -> bool, owned: T -> bool, added: seq<T>)
    requires forall x :: owned(x) == !keep(x)
    requires forall i :: 0 <= i < |added| ==> owned(added[i])
    ensures Filter(Replace(rows, keep, added), owned) == added
    ensures Filter(Replace(rows, keep, added), keep) == Filter(rows, keep)
  {
    FilterAppend(Filter(rows, keep), added, owned);
    FilterSelects(rows, keep);
    FilterNone(Filter(rows, keep), owned);
    FilterAll(added, owned);
    FilterAppend(Filter(rows, keep), added, keep);
    FilterTwice(rows, keep);
    FilterNone(added, keep);
    assert Filter(rows, keep) + [] == Filter(rows, keep);
  }

  /** Replacing an owner's rows twice with the same rows is the same as doing it once. */
  lemma ReplaceIdempotent<T>(rows: seq<T>, keep: T -> bool, added: seq<T>)
    requires forall i :: 0 <= i < |added| ==> !keep(added[i])
    ensures Replace(Replace(rows, keep, added), keep, added) == Replace(rows, keep, added)
  {
    FilterAppend(Filter(rows, keep), added, keep);
    FilterTwice(rows, keep);
    FilterNone(added, keep);
    assert Filter(rows, keep) + [] == Filter(rows, keep);
  }

  /** Replacing with the new rows of a second call leaves no trace of the first call's rows. */
  lemma ReplaceOverwrites<T>(rows: seq<T>, keep: T -> bool, first: seq<T>, second: seq<T>)
    requires forall i :: 0 <= i < |first| ==> !keep(first[i])
    ensures Replace(Replace(rows, keep, first), keep, second) == Replace(rows, keep, second)
  {
    FilterAppend(Filter(rows, keep), first, keep);
    FilterTwice(rows, keep);
    FilterNone(first, keep);
    assert Filter(rows, keep) + [] == Filter(rows, keep);
  }
}
