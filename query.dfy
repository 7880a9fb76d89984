/**
 * The shapes of SQL query the registry issues against its tables:
 * `WHERE` (Filter), `ORDER BY stamp DESC` over a table whose rows are
 * appended in clock order (Reverse), `LIMIT` (Take), and `fetchone()`
 * without an `ORDER BY` (FirstIndex, under the assumption that SQLite
 * scans a table in insertion order).
 */
module Query {
  import opened Wrappers

  /** Stamps never decrease along the sequence. */
  ghost predicate Ascending<T>(s: seq<T>, stamp: T -> nat) {
    forall i, j :: 0 <= i < j < |s| ==> stamp(s[i]) <= stamp(s[j])
  }

  /** Stamps never increase along the sequence. */
  ghost predicate Descending<T>(s: seq<T>, stamp: T -> nat) {
    forall i, j :: 0 <= i < j < |s| ==> stamp(s[i]) >= stamp(s[j])
  }

  /**
   * A table whose rows were appended with the readings of a clock that is
   * now at `clock`: each stamp is at most the next one, and the last is at
   * most the clock. Stated link by link rather than with a quantifier, so
   * that keeping it costs one unfolding per append.
   */
  ghost predicate Stamped<T>(s: seq<T>, stamp: T -> nat, clock: nat)
    decreases |s|
  {
    s == [] || (stamp(s[|s| - 1]) <= clock && Stamped(s[..|s| - 1], stamp, stamp(s[|s| - 1])))
  }

  /** Appending a row stamped with the clock's reading keeps the table stamped. */
  lemma StampedAppend<T>(s: seq<T>, x: T, stamp: T -> nat, clock: nat)
    requires Stamped(s, stamp, clock) && stamp(x) == clock
    ensures Stamped(s + [x], stamp, clock)
  {
    assert (s + [x])[..|s|] == s;
  }

  /** The clock moving forward keeps every table stamped. */
  lemma StampedLater<T>(s: seq<T>, stamp: T -> nat, clock: nat, later: nat)
    requires Stamped(s, stamp, clock) && clock <= later
    ensures Stamped(s, stamp, later)
  {
  }

  /** Rewriting rows without touching their stamps keeps the table stamped. */
  lemma {:induction false} StampedSameStamps<T>(s: seq<T>, t: seq<T>, stamp: T -> nat, clock: nat)
    requires Stamped(s, stamp, clock) && |s| == |t|
    requires forall i :: 0 <= i < |s| ==> stamp(s[i]) == stamp(t[i])
    ensures Stamped(t, stamp, clock)
    decreases |s|
  {
    if s != [] {
      StampedSameStamps(s[..|s| - 1], t[..|t| - 1], stamp, stamp(s[|s| - 1]));
    }
  }

  /** A stamped table is in ascending stamp order, and no stamp is later than the clock. */
  lemma {:induction false} StampedAscending<T>(s: seq<T>, stamp: T -> nat, clock: nat)
    requires Stamped(s, stamp, clock)
    ensures Ascending(s, stamp)
    ensures forall i :: 0 <= i < |s| ==> stamp(s[i]) <= clock
    decreases |s|
  {
    if s != [] {
      var init, last := s[..|s| - 1], s[|s| - 1];
      StampedAscending(init, stamp, stamp(last));
      assert forall i :: 0 <= i < |init| ==> s[i] == init[i];
    }
  }

  /** Removing rows keeps a stamped table stamped (`DELETE ... WHERE`). */
  lemma {:induction false} StampedFilter<T>(s: seq<T>, keep: T -> bool, stamp: T -> nat, clock: nat)
    requires Stamped(s, stamp, clock)
    ensures Stamped(Filter(s, keep), stamp, clock)
    decreases |s|
  {
    if s != [] {
      var init, last := s[..|s| - 1], s[|s| - 1];
      StampedFilter(init, keep, stamp, stamp(last));
      if keep(last) {
        StampedAppend(Filter(init, keep), last, stamp, stamp(last));
        StampedLater(Filter(init, keep) + [last], stamp, stamp(last), clock);
      } else {
        assert Filter(s, keep) == Filter(init, keep);
        StampedLater(Filter(init, keep), stamp, stamp(last), clock);
      }
    }
  }

  /** `WHERE keep(row)`, keeping the table's order. */
  function Filter<T>(s: seq<T>, keep: T -> bool): (r: seq<T>)
    ensures |r| <= |s|
    ensures forall i :: 0 <= i < |r| ==> keep(r[i])
  {
    if s == [] then []
    else
      var init, last := s[..|s| - 1], s[|s| - 1];
      Filter(init, keep) + (if keep(last) then [last] else [])
  }

  /** Rows appended to the table add their own matches after the old ones. */
  lemma {:induction false} FilterConcat<T>(s: seq<T>, t: seq<T>, keep: T -> bool)
    ensures Filter(s + t, keep) == Filter(s, keep) + Filter(t, keep)
    decreases |t|
  {
    if t != [] {
      var init := t[..|t| - 1];
      assert (s + t)[..|s + t| - 1] == s + init;
      FilterConcat(s, init, keep);
    } else {
      assert s + t == s;
    }
  }

  /** `WHERE` draws its rows from the table and misses none that match. */
  lemma {:induction false} FilterMembers<T>(s: seq<T>, keep: T -> bool)
    ensures multiset(Filter(s, keep)) <= multiset(s)
    ensures forall j :: 0 <= j < |s| && keep(s[j]) ==> s[j] in Filter(s, keep)
  {
    if s != [] {
      var init, last := s[..|s| - 1], s[|s| - 1];
      assert s == init + [last];
      FilterMembers(init, keep);
      forall j | 0 <= j < |s| && keep(s[j]) ensures s[j] in Filter(s, keep) {
        if j < |init| {
          assert s[j] == init[j];
        }
      }
    }
  }

  /** An upper bound on every stamp of the table bounds every stamp of the answer. */
  lemma {:induction false} FilterBounded<T>(s: seq<T>, keep: T -> bool, stamp: T -> nat, m: nat)
    requires forall i :: 0 <= i < |s| ==> stamp(s[i]) <= m
    ensures forall i :: 0 <= i < |Filter(s, keep)| ==> stamp(Filter(s, keep)[i]) <= m
  {
    if s != [] {
      var init := s[..|s| - 1];
      FilterBounded(init, keep, stamp, m);
    }
  }

  /** The table read backwards: newest row first. */
  function Reverse<T>(s: seq<T>): (r: seq<T>)
    ensures |r| == |s|
    ensures forall i :: 0 <= i < |s| ==> r[i] == s[|s| - 1 - i]
  {
    if s == [] then [] else [s[|s| - 1]] + Reverse(s[..|s| - 1])
  }

  lemma {:induction false} ReverseMultiset<T>(s: seq<T>)
    ensures multiset(Reverse(s)) == multiset(s)
  {
    if s != [] {
      var init, last := s[..|s| - 1], s[|s| - 1];
      assert s == init + [last];
      ReverseMultiset(init);
    }
  }

  /** How many rows `LIMIT limit` lets through out of `n`; SQLite reads a negative limit as no limit. */
  function Limited(n: nat, limit: int): (k: nat)
    ensures k <= n
    ensures limit >= 0 ==> k <= limit
    ensures k < n ==> k == limit
  {
    if limit < 0 || limit >= n then n else limit
  }

  /** `LIMIT limit`. */
  function Take<T>(s: seq<T>, limit: int): (r: seq<T>)
    ensures |r| == Limited(|s|, limit)
    ensures r == s[..|r|]
  {
    if limit < 0 || limit >= |s| then s else s[..limit]
  }

  /** `SELECT * FROM s WHERE keep ORDER BY stamp DESC LIMIT limit`, answered newest-inserted first. */
  function NewestFirst<T>(s: seq<T>, keep: T -> bool, limit: int): seq<T> {
    Take(Reverse(Filter(s, keep)), limit)
  }

  /**
   * What SQLite promises of `SELECT * FROM s WHERE keep ORDER BY stamp DESC LIMIT limit`:
   * the answer draws only matching rows, as many as the limit lets through,
   * in descending stamp order, and no matching row newer than a returned one
   * is left out -- counting copies, since identical rows may repeat. Rows
   * with equal stamps may come in any order.
   */
  ghost predicate IsOrderByDescLimit<T>(r: seq<T>, s: seq<T>, keep: T -> bool, stamp: T -> nat, limit: int) {
    && multiset(r) <= multiset(Filter(s, keep))
    && |r| == Limited(|Filter(s, keep)|, limit)
    && Descending(r, stamp)
    && (forall i, j :: 0 <= i < |r| && 0 <= j < |s| && keep(s[j]) && stamp(s[j]) > stamp(r[i]) ==> s[j] in r)
    && (forall i, j :: 0 <= i < |r| && 0 <= j < |s| && keep(s[j]) && stamp(s[j]) > stamp(r[i]) ==>
          multiset(r)[s[j]] == multiset(Filter(s, keep))[s[j]])
  }

  lemma {:induction false} FilterAscending<T>(s: seq<T>, keep: T -> bool, stamp: T -> nat)
    requires Ascending(s, stamp)
    ensures Ascending(Filter(s, keep), stamp)
  {
    if s != [] {
      var init, last := s[..|s| - 1], s[|s| - 1];
      FilterAscending(init, keep, stamp);
      FilterBounded(init, keep, stamp, stamp(last));
    }
  }

  lemma ReverseDescending<T>(s: seq<T>, stamp: T -> nat)
    requires Ascending(s, stamp)
    ensures Descending(Reverse(s), stamp)
  {
    var r := Reverse(s);
    forall i, j | 0 <= i < j < |r| ensures stamp(r[i]) >= stamp(r[j]) {
      assert r[i] == s[|s| - 1 - i] && r[j] == s[|s| - 1 - j];
    }
  }

  lemma PrefixMultiset<T>(s: seq<T>, n: nat)
    requires n <= |s|
    ensures multiset(s[..n]) <= multiset(s)
  {
    assert s == s[..n] + s[n..];
  }

  /** A descending sequence cut after `n` rows keeps every row newer than one it keeps. */
  lemma TakeKeepsNewer<T>(rev: seq<T>, n: nat, stamp: T -> nat, x: T, i: nat)
    requires Descending(rev, stamp) && n <= |rev| && i < n
    requires x in rev && stamp(x) > stamp(rev[i])
    ensures x in rev[..n]
  {
    var k :| 0 <= k < |rev| && rev[k] == x;
    assert k < n;
    assert rev[..n][k] == x;
  }

  /** ... and keeps every copy of such a row. */
  lemma TakeKeepsAllCopies<T>(rev: seq<T>, n: nat, stamp: T -> nat, x: T, i: nat)
    requires Descending(rev, stamp) && n <= |rev| && i < n
    requires stamp(x) > stamp(rev[i])
    ensures multiset(rev[..n])[x] == multiset(rev)[x]
  {
    assert rev == rev[..n] + rev[n..];
    forall k | 0 <= k < |rev[n..]| ensures rev[n..][k] != x {
      assert rev[n..][k] == rev[n + k];
    }
    assert x !in multiset(rev[n..]);
  }

  /** The newest-first answer holds every copy of a matching row newer than one it returns. */
  lemma NewestFirstKeepsCopies<T>(s: seq<T>, keep: T -> bool, stamp: T -> nat, limit: int)
    requires Ascending(s, stamp)
    ensures var r := NewestFirst(s, keep, limit);
      forall i, j :: 0 <= i < |r| && 0 <= j < |s| && keep(s[j]) && stamp(s[j]) > stamp(r[i]) ==>
        multiset(r)[s[j]] == multiset(Filter(s, keep))[s[j]]
  {
    var f := Filter(s, keep);
    var rev := Reverse(f);
    var r := NewestFirst(s, keep, limit);
    FilterAscending(s, keep, stamp);
    ReverseDescending(f, stamp);
    ReverseMultiset(f);
    forall i, j | 0 <= i < |r| && 0 <= j < |s| && keep(s[j]) && stamp(s[j]) > stamp(r[i])
      ensures multiset(r)[s[j]] == multiset(f)[s[j]]
    {
      TakeKeepsAllCopies(rev, |r|, stamp, s[j], i);
    }
  }

  lemma NewestFirstIsOrderByDesc<T>(s: seq<T>, keep: T -> bool, stamp: T -> nat, limit: int)
    requires Ascending(s, stamp)
    ensures IsOrderByDescLimit(NewestFirst(s, keep, limit), s, keep, stamp, limit)
  {
    var f := Filter(s, keep);
    var rev := Reverse(f);
    var r := NewestFirst(s, keep, limit);
    FilterAscending(s, keep, stamp);
    FilterMembers(s, keep);
    ReverseDescending(f, stamp);
    ReverseMultiset(f);
    PrefixMultiset(rev, |r|);
    forall i, j | 0 <= i < |r| && 0 <= j < |s| && keep(s[j]) && stamp(s[j]) > stamp(r[i])
      ensures s[j] in r
    {
      assert s[j] in multiset(rev);
      TakeKeepsNewer(rev, |r|, stamp, s[j], i);
    }
    NewestFirstKeepsCopies(s, keep, stamp, limit);
  }

  /** Every row an `ORDER BY ... LIMIT` answer holds is a matching row of the table. */
  lemma OrderByDescDrawsMatches<T>(r: seq<T>, s: seq<T>, keep: T -> bool, stamp: T -> nat, limit: int)
    requires IsOrderByDescLimit(r, s, keep, stamp, limit)
    ensures forall k :: 0 <= k < |r| ==> r[k] in s && keep(r[k])
  {
    FilterMembers(s, keep);
    forall k | 0 <= k < |r| ensures r[k] in s && keep(r[k]) {
      assert r[k] in multiset(Filter(s, keep));
    }
  }

  /** `fetchone()` of a query without `ORDER BY`: the first matching row in scan order. */
  function FirstIndex<T>(s: seq<T>, p: T -> bool): (r: Option<nat>)
    ensures r.Some? ==> r.value < |s| && p(s[r.value])
    ensures r.Some? ==> forall j :: 0 <= j < r.value ==> !p(s[j])
    ensures r.None? <==> forall j :: 0 <= j < |s| ==> !p(s[j])
  {
    if s == [] then None
    else if p(s[0]) then Some(0)
    else match FirstIndex(s[1..], p)
      case None => None
      case Some(k) => Some(k + 1)
  }
}
