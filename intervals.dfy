/** Conflict intervals: the sort and the merge pass that end
    `check_pair_conflict`. */
module Intervals {
  import opened Numerics

  /** A time interval `[start, finish]` in seconds, Python's `[s, e]` list. */
  datatype Interval = Interval(start: real, finish: real)

  /** Python's ordering of two-element lists: by start, then by finish. */
  predicate LexLe(a: Interval, b: Interval)
  {
    a.start < b.start || (a.start == b.start && a.finish <= b.finish)
  }

  predicate SortedLex(s: seq<Interval>)
  {
    forall i, j :: 0 <= i < j < |s| ==> LexLe(s[i], s[j])
  }

  /** Inserts `x` into a sorted list before the first element it precedes. */
  function Insert(x: Interval, s: seq<Interval>): (r: seq<Interval>)
    requires SortedLex(s)
    ensures SortedLex(r)
    ensures multiset(r) == multiset(s) + multiset{x}
  {
    if s == [] then [x]
    else if LexLe(x, s[0]) then [x] + s
    else
      var rest := Insert(x, s[1..]);
      assert s == [s[0]] + s[1..];
      InsertSorted(s[0], s[1..], x, rest);
      [s[0]] + rest
  }

  lemma InsertSorted(y: Interval, s: seq<Interval>, x: Interval, rest: seq<Interval>)
    requires SortedLex([y] + s) && !LexLe(x, y)
    requires SortedLex(rest) && multiset(rest) == multiset(s) + multiset{x}
    ensures SortedLex([y] + rest)
  {
    forall k | 0 <= k < |rest| ensures LexLe(y, rest[k]) {
      assert rest[k] in multiset(rest);
      if rest[k] == x {
        assert LexLe(y, x);
      } else {
        assert rest[k] in multiset(s);
        var j :| 0 <= j < |s| && s[j] == rest[k];
        assert ([y] + s)[0] == y && ([y] + s)[j + 1] == s[j];
        assert LexLe(([y] + s)[0], ([y] + s)[j + 1]);
      }
    }
    var r := [y] + rest;
    forall i, j | 0 <= i < j < |r| ensures LexLe(r[i], r[j]) {
      if i > 0 {
        assert r[i] == rest[i - 1] && r[j] == rest[j - 1];
      } else {
        assert r[j] == rest[j - 1];
      }
    }
  }

  /** `intervals.sort()`: the sorted permutation of the input (unique, as
      the order is total). */
  function Sort(s: seq<Interval>): (r: seq<Interval>)
    ensures SortedLex(r)
    ensures multiset(r) == multiset(s)
  {
    if s == [] then []
    else
      assert s == [s[0]] + s[1..];
      Insert(s[0], Sort(s[1..]))
  }

  /** The merge, from the interval being grown (`cs`, `ce`) and the rest. */
  function MergeFrom(cur: Interval, rest: seq<Interval>): seq<Interval>
    decreases |rest|
  {
    if rest == [] then [cur]
    else if rest[0].start <= cur.finish + 1.0 then
      MergeFrom(Interval(cur.start, Max(cur.finish, rest[0].finish)), rest[1..])
    else [cur] + MergeFrom(rest[0], rest[1..])
  }

  /** Specification of the merge pass: intervals whose gap is at most one
      second are joined. */
  function Merge(s: seq<Interval>): seq<Interval>
  {
    if s == [] then [] else MergeFrom(s[0], s[1..])
  }

  /** The merge loop of `check_pair_conflict`. */
  method MergeIntervals(intervals: seq<Interval>) returns (merged: seq<Interval>)
    ensures merged == Merge(intervals)
  {
    merged := [];
    if |intervals| > 0 {
      var cs, ce := intervals[0].start, intervals[0].finish;
      var i := 1;
      while i < |intervals|
        invariant 1 <= i <= |intervals|
        invariant merged + MergeFrom(Interval(cs, ce), intervals[i..]) == Merge(intervals)
      {
        var ns, ne := intervals[i].start, intervals[i].finish;
        assert intervals[i..][1..] == intervals[i + 1..];
        ghost var tail := MergeFrom(Interval(ns, ne), intervals[i + 1..]);
        if ns <= ce + 1.0 {
          ce := Max(ce, ne);
        } else {
          assert MergeFrom(Interval(cs, ce), intervals[i..]) == [Interval(cs, ce)] + tail;
          assert (merged + [Interval(cs, ce)]) + tail == merged + ([Interval(cs, ce)] + tail);
          merged := merged + [Interval(cs, ce)];
          cs, ce := ns, ne;
        }
        i := i + 1;
      }
      merged := merged + [Interval(cs, ce)];
    }
  }

  predicate WellFormed(s: seq<Interval>)
  {
    forall k :: 0 <= k < |s| ==> s[k].start < s[k].finish
  }

  predicate SortedByStart(s: seq<Interval>)
  {
    forall i, j :: 0 <= i < j < |s| ==> s[i].start <= s[j].start
  }

  /** Consecutive intervals are more than one second apart. */
  predicate Separated(s: seq<Interval>)
  {
    forall i :: 0 <= i < |s| - 1 ==> s[i].finish + 1.0 < s[i + 1].start
  }

  predicate Covers(m: Interval, x: Interval)
  {
    m.start <= x.start && x.finish <= m.finish
  }

  /** Every interval of `s` lies inside some interval of `r`. */
  predicate CoveredBy(s: seq<Interval>, r: seq<Interval>)
  {
    forall x :: x in s ==> exists m :: m in r && Covers(m, x)
  }

  function Starts(s: seq<Interval>): set<real> { set x | x in s :: x.start }
  function Finishes(s: seq<Interval>): set<real> { set x | x in s :: x.finish }

  lemma {:induction false} MergeFromFacts(cur: Interval, rest: seq<Interval>)
    ensures var r := MergeFrom(cur, rest);
      && 1 <= |r| <= |rest| + 1
      && r[0].start == cur.start
      && Separated(r)
      && Starts(r) <= Starts([cur] + rest)
      && Finishes(r) <= Finishes([cur] + rest)
      && ((cur.start < cur.finish && WellFormed(rest)) ==> WellFormed(r))
    decreases |rest|
  {
    if rest != [] {
      var next := rest[0];
      assert rest == [next] + rest[1..];
      if next.start <= cur.finish + 1.0 {
        var cur' := Interval(cur.start, Max(cur.finish, next.finish));
        MergeFromFacts(cur', rest[1..]);
        assert Starts([cur'] + rest[1..]) <= Starts([cur] + rest);
        assert Finishes([cur'] + rest[1..]) <= Finishes([cur] + rest);
      } else {
        MergeFromFacts(next, rest[1..]);
        var tail := MergeFrom(next, rest[1..]);
        var r := [cur] + tail;
        assert r == MergeFrom(cur, rest);
        forall i | 0 <= i < |r| - 1 ensures r[i].finish + 1.0 < r[i + 1].start {
          if i > 0 {
            assert r[i] == tail[i - 1] && r[i + 1] == tail[i];
          }
        }
        assert Starts(r) == {cur.start} + Starts(tail);
        assert Finishes(r) == {cur.finish} + Finishes(tail);
        assert Starts([next] + rest[1..]) <= Starts([cur] + rest);
        assert Finishes([next] + rest[1..]) <= Finishes([cur] + rest);
      }
    }
  }

  lemma {:induction false} MergeFromCovers(cur: Interval, rest: seq<Interval>)
    requires SortedByStart([cur] + rest)
    ensures CoveredBy([cur] + rest, MergeFrom(cur, rest))
    decreases |rest|
  {
    var s := [cur] + rest;
    var r := MergeFrom(cur, rest);
    if rest == [] {
      assert Covers(cur, cur);
    } else {
      var next := rest[0];
      assert rest == [next] + rest[1..];
      if next.start <= cur.finish + 1.0 {
        var cur' := Interval(cur.start, Max(cur.finish, next.finish));
        var s' := [cur'] + rest[1..];
        forall i, j | 0 <= i < j < |s'| ensures s'[i].start <= s'[j].start {
          assert s'[j] == s[j + 1];
          if i > 0 { assert s'[i] == s[i + 1]; } else { assert s[0].start <= s[j + 1].start; }
        }
        MergeFromCovers(cur', rest[1..]);
        assert r == MergeFrom(cur', rest[1..]);
        forall x | x in s ensures exists m :: m in r && Covers(m, x) {
          if x == cur || x == next {
            assert cur' in s';
            var m :| m in r && Covers(m, cur');
            assert s[0].start <= s[1].start;
            assert Covers(m, x);
          } else {
            assert x in s';
          }
        }
      } else {
        var tail := MergeFrom(next, rest[1..]);
        assert r == [cur] + tail;
        forall i, j | 0 <= i < j < |rest| ensures rest[i].start <= rest[j].start {
          assert rest[i] == s[i + 1] && rest[j] == s[j + 1];
        }
        MergeFromCovers(next, rest[1..]);
        forall x | x in s ensures exists m :: m in r && Covers(m, x) {
          if x == cur {
            assert cur in r && Covers(cur, cur);
          } else {
            assert x in [next] + rest[1..];
            var m :| m in tail && Covers(m, x);
            assert m in r;
          }
        }
      }
    }
  }

  /** The merge result, for sorted intervals with `start < finish`: it is
      empty exactly when the input is, never longer than the input, ordered by
      start with consecutive intervals more than one second apart, every input
      interval lies inside some merged interval, and every merged interval
      starts at an input start and ends at an input finish. */
  lemma MergeProperties(s: seq<Interval>)
    requires SortedByStart(s) && WellFormed(s)
    ensures var r := Merge(s);
      && (r == [] <==> s == [])
      && |r| <= |s|
      && WellFormed(r)
      && Separated(r)
      && (forall i, j :: 0 <= i < j < |r| ==> r[i].finish < r[j].start)
      && CoveredBy(s, r)
      && Starts(r) <= Starts(s)
      && Finishes(r) <= Finishes(s)
  {
    var r := Merge(s);
    if s != [] {
      assert s == [s[0]] + s[1..];
      MergeFromFacts(s[0], s[1..]);
      MergeFromCovers(s[0], s[1..]);
      SeparatedOrdered(r);
    }
  }

  /** `intervals.sort()` followed by the merge, for intervals with
      `start < finish` in any order: the properties of `MergeProperties`,
      stated against the unsorted input. */
  lemma SortMergeProperties(s: seq<Interval>)
    requires WellFormed(s)
    ensures var r := Merge(Sort(s));
      && (r == [] <==> s == [])
      && |r| <= |s|
      && WellFormed(r)
      && Separated(r)
      && (forall i, j :: 0 <= i < j < |r| ==> r[i].finish < r[j].start)
      && CoveredBy(s, r)
      && Starts(r) <= Starts(s)
      && Finishes(r) <= Finishes(s)
  {
    var sorted := Sort(s);
    assert forall x :: x in sorted <==> x in s by {
      forall x ensures x in sorted <==> x in s {
        assert x in multiset(sorted) <==> x in multiset(s);
      }
    }
    assert |sorted| == |s| by {
      assert |multiset(sorted)| == |multiset(s)|;
    }
    forall k | 0 <= k < |sorted| ensures sorted[k].start < sorted[k].finish {
      assert sorted[k] in s;
    }
    SortedLexByStart(sorted);
    MergeProperties(sorted);
    assert Starts(sorted) == Starts(s);
    assert Finishes(sorted) == Finishes(s);
  }

  /** Each merged interval starts at the start of an input interval and
      finishes at the finish of one. */
  lemma MergedEndsFrom(s: seq<Interval>, m: Interval)
    requires WellFormed(s) && m in Merge(Sort(s))
    ensures exists x :: x in s && x.start == m.start
    ensures exists x :: x in s && x.finish == m.finish
  {
    SortMergeProperties(s);
    assert m.start in Starts(Merge(Sort(s)));
    assert m.finish in Finishes(Merge(Sort(s)));
  }

  lemma {:induction false} SeparatedOrdered(r: seq<Interval>)
    requires Separated(r)
    requires forall k :: 0 <= k < |r| ==> r[k].start <= r[k].finish
    ensures forall i, j :: 0 <= i < j < |r| ==> r[i].finish < r[j].start
    decreases |r|
  {
    if |r| > 1 {
      SeparatedOrdered(r[1..]);
      forall i, j | 0 <= i < j < |r| ensures r[i].finish < r[j].start {
        if i > 0 {
          assert r[i] == r[1..][i - 1] && r[j] == r[1..][j - 1];
        } else if j > 1 {
          assert r[1] == r[1..][0] && r[j] == r[1..][j - 1];
        }
      }
    }
  }

  lemma SortedLexByStart(s: seq<Interval>)
    requires SortedLex(s)
    ensures SortedByStart(s)
  {
  }

  /** Two intervals one second apart are joined; two seconds apart they stay
      separate. */
  lemma MergeExamples()
    ensures Merge([Interval(0.0, 10.0), Interval(11.0, 20.0)]) == [Interval(0.0, 20.0)]
    ensures Merge([Interval(0.0, 10.0), Interval(12.0, 20.0)]) == [Interval(0.0, 10.0), Interval(12.0, 20.0)]
  {
  }
}
