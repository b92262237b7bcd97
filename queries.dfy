/**
 * The shape of the core's read-only queries over a table kept in insertion
 * order: a WHERE filter, and a filter followed by ORDER BY time DESC and
 * LIMIT when rows are inserted with non-decreasing times.
 */
module Queries {

  function Min(a: int, b: int): int
  {
    if a <= b then a else b
  }

  /** The rows `keep` accepts, in table order. */
  function Filter<T(==,!new)>(xs: seq<T>, keep: T -> bool): (r: seq<T>)
    ensures |r| <= |xs|
    ensures forall x :: x in r <==> x in xs && keep(x)
  {
    if xs == [] then []
    else
      var init, last := xs[..|xs| - 1], xs[|xs| - 1];
      assert xs == init + [last];
      Filter(init, keep) + (if keep(last) then [last] else [])
  }

  /** The rows in the opposite order. */
  function Reverse<T>(xs: seq<T>): (r: seq<T>)
    ensures |r| == |xs|
    ensures forall i :: 0 <= i < |r| ==> r[i] == xs[|xs| - 1 - i]
  {
    if xs == [] then [] else [xs[|xs| - 1]] + Reverse(xs[..|xs| - 1])
  }

  /** Reversing a row list with one more row at the end puts that row first. */
  lemma ReverseSnoc<T>(xs: seq<T>, x: T)
    ensures Reverse(xs + [x]) == [x] + Reverse(xs)
  {
    assert (xs + [x])[..|xs|] == xs;
  }

  /**
   * The accepted rows, latest inserted first, at most `limit` of them: the
   * filter, reversed and cut after `limit` rows.
   */
  function NewestFirst<T(==,!new)>(xs: seq<T>, keep: T -> bool, limit: nat): (r: seq<T>)
    ensures r == Reverse(Filter(xs, keep))[..Min(limit, |Filter(xs, keep)|)]
  {
    if xs == [] || limit == 0 then []
    else
      var init, last := xs[..|xs| - 1], xs[|xs| - 1];
      if keep(last) then
        var rest := NewestFirst(init, keep, limit - 1);
        NewestFirstKept(xs, keep, limit, rest);
        [last] + rest
      else
        var rest := NewestFirst(init, keep, limit);
        NewestFirstSkipped(xs, keep, limit, rest);
        rest
  }

  /** An accepted last row heads the newest-first list, followed by the newest-first list of the rows before it. */
  lemma NewestFirstKept<T(!new)>(xs: seq<T>, keep: T -> bool, limit: nat, rest: seq<T>)
    requires xs != [] && limit > 0 && keep(xs[|xs| - 1])
    requires rest == Reverse(Filter(xs[..|xs| - 1], keep))[..Min(limit - 1, |Filter(xs[..|xs| - 1], keep)|)]
    ensures [xs[|xs| - 1]] + rest == Reverse(Filter(xs, keep))[..Min(limit, |Filter(xs, keep)|)]
  {
    var last, f := xs[|xs| - 1], Filter(xs[..|xs| - 1], keep);
    assert Filter(xs, keep) == f + [last];
    ReverseSnoc(f, last);
    var rf := Reverse(f);
    assert ([last] + rf)[..Min(limit, |f| + 1)] == [last] + rf[..Min(limit - 1, |f|)];
  }

  /** A refused last row leaves the newest-first list of the rows before it unchanged. */
  lemma NewestFirstSkipped<T(!new)>(xs: seq<T>, keep: T -> bool, limit: nat, rest: seq<T>)
    requires xs != [] && !keep(xs[|xs| - 1])
    requires rest == Reverse(Filter(xs[..|xs| - 1], keep))[..Min(limit, |Filter(xs[..|xs| - 1], keep)|)]
    ensures rest == Reverse(Filter(xs, keep))[..Min(limit, |Filter(xs, keep)|)]
  {
    var f := Filter(xs[..|xs| - 1], keep);
    assert Filter(xs, keep) == f + [];
    assert f + [] == f;
  }

  /** Every row `NewestFirst` returns is an accepted row of the table. */
  lemma {:induction false} NewestFirstFromTable<T(!new)>(xs: seq<T>, keep: T -> bool, limit: nat)
    ensures forall x :: x in NewestFirst(xs, keep, limit) ==> x in xs && keep(x)
  {
    if xs != [] && limit != 0 {
      var init, last := xs[..|xs| - 1], xs[|xs| - 1];
      assert xs == init + [last];
      if keep(last) {
        NewestFirstFromTable(init, keep, limit - 1);
      } else {
        NewestFirstFromTable(init, keep, limit);
      }
    }
  }

  /** Rows whose times never decrease along the table. */
  ghost predicate TimesAscend<T>(xs: seq<T>, time: T -> int)
  {
    forall i, j :: 0 <= i < j < |xs| ==> time(xs[i]) <= time(xs[j])
  }

  /** On a table inserted in time order, no row before the last is newer than it. */
  lemma LastIsNewest<T>(xs: seq<T>, time: T -> int)
    requires TimesAscend(xs, time) && xs != []
    ensures forall y :: y in xs[..|xs| - 1] ==> time(y) <= time(xs[|xs| - 1])
  {
    forall y | y in xs[..|xs| - 1] ensures time(y) <= time(xs[|xs| - 1]) {
      var k :| 0 <= k < |xs| - 1 && xs[..|xs| - 1][k] == y;
      assert xs[k] == y;
    }
  }

  /** Rows listed newest first. */
  ghost predicate TimesDescend<T>(r: seq<T>, time: T -> int)
  {
    forall i, j :: 0 <= i < j < |r| ==> time(r[i]) >= time(r[j])
  }

  /** A row no older than every row of a table in time order can be appended to it. */
  lemma AscendingSnoc<T>(f: seq<T>, x: T, time: T -> int)
    requires TimesAscend(f, time)
    requires forall y :: y in f ==> time(y) <= time(x)
    ensures TimesAscend(f + [x], time)
  {
    var g := f + [x];
    forall i, j | 0 <= i < j < |g| ensures time(g[i]) <= time(g[j]) {
      assert g[i] == f[i];
      if j < |f| {
        assert g[j] == f[j];
      }
    }
  }

  /** Filtering a table inserted in time order keeps the rows in time order. */
  lemma {:induction false} FilterAscends<T(!new)>(xs: seq<T>, keep: T -> bool, time: T -> int)
    requires TimesAscend(xs, time)
    ensures TimesAscend(Filter(xs, keep), time)
  {
    if xs != [] {
      var init, last := xs[..|xs| - 1], xs[|xs| - 1];
      assert TimesAscend(init, time);
      FilterAscends(init, keep, time);
      var f := Filter(init, keep);
      if keep(last) {
        assert Filter(xs, keep) == f + [last];
        LastIsNewest(xs, time);
        AscendingSnoc(f, last, time);
      } else {
        assert Filter(xs, keep) == f + [];
        assert f + [] == f;
      }
    }
  }

  /** Reversing rows in time order lists them newest first. */
  lemma ReverseDescends<T>(f: seq<T>, time: T -> int)
    requires TimesAscend(f, time)
    ensures TimesDescend(Reverse(f), time)
  {
    var rf := Reverse(f);
    forall i, j | 0 <= i < j < |rf| ensures time(rf[i]) >= time(rf[j]) {
      assert rf[i] == f[|f| - 1 - i] && rf[j] == f[|f| - 1 - j];
    }
  }

  /** On a table inserted in time order, `NewestFirst` lists its rows newest first. */
  lemma NewestFirstDescending<T(!new)>(xs: seq<T>, keep: T -> bool, limit: nat, time: T -> int)
    requires TimesAscend(xs, time)
    ensures TimesDescend(NewestFirst(xs, keep, limit), time)
  {
    var f := Filter(xs, keep);
    FilterAscends(xs, keep, time);
    ReverseDescends(f, time);
    var rf := Reverse(f);
    var r := NewestFirst(xs, keep, limit);
    assert r == rf[..Min(limit, |f|)];
    forall i, j | 0 <= i < j < |r| ensures time(r[i]) >= time(r[j]) {
      assert r[i] == rf[i] && r[j] == rf[j];
    }
  }

  /**
   * On a table inserted in time order, no accepted row that `NewestFirst`
   * leaves out is newer than a row it returns.
   */
  lemma {:induction false} NewestFirstKeepsNewest<T(!new)>(xs: seq<T>, keep: T -> bool, limit: nat, time: T -> int)
    requires TimesAscend(xs, time)
    ensures forall x, y ::
      (x in xs && keep(x) && x !in NewestFirst(xs, keep, limit) && y in NewestFirst(xs, keep, limit))
      ==> time(x) <= time(y)
  {
    if xs != [] && limit != 0 {
      var init, last := xs[..|xs| - 1], xs[|xs| - 1];
      assert xs == init + [last];
      assert TimesAscend(init, time);
      var r := NewestFirst(xs, keep, limit);
      if keep(last) {
        var rest := NewestFirst(init, keep, limit - 1);
        assert r == [last] + rest;
        NewestFirstKeepsNewest(init, keep, limit - 1, time);
        NewestFirstFromTable(init, keep, limit - 1);
        forall x, y | x in xs && keep(x) && x !in r && y in r ensures time(x) <= time(y) {
          assert x in init;
          var k :| 0 <= k < |init| && init[k] == x;
          assert xs[k] == x;
          if y == last {
            assert time(xs[k]) <= time(xs[|xs| - 1]);
          } else {
            assert y in rest;
          }
        }
      } else {
        NewestFirstKeepsNewest(init, keep, limit, time);
      }
    }
  }
}
