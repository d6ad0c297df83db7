/** The precision refinement of `check_pair_conflict`: two 15-step
    bisections on the great-circle separation of two legs, one for the first
    and one for the last moment under 5 NM. */
module Bisection {
  import opened Numerics
  import opened Legs
  import opened Pruning

  /** Number of halvings in each search. */
  const Steps: nat := 15

  /** Position of a leg at time `t`, by great-circle interpolation. */
  function PositionAt(n: Numerics, l: Leg, t: real): Coord
    requires l.duration != 0.0
  {
    Interpolate(n, l.start, l.stop, (t - l.t0) / l.duration)
  }

  /** `get_dist`: great-circle separation of two legs at time `t`, NM. */
  function SeparationAt(n: Numerics, l1: Leg, l2: Leg, t: real): real
    requires l1.duration != 0.0 && l2.duration != 0.0
  {
    Haversine(n, PositionAt(n, l1, t), PositionAt(n, l2, t))
  }

  /** Before its start and after its end a leg is at its endpoints. */
  lemma PositionClamped(n: Numerics, l: Leg, t: real)
    requires l.duration > 0.0
    ensures t <= l.t0 ==> PositionAt(n, l, t) == l.start
    ensures t >= l.t1() ==> PositionAt(n, l, t) == l.stop
  {
    var f := (t - l.t0) / l.duration;
    if t <= l.t0 {
      assert t - l.t0 <= 0.0;
      assert f <= 0.0;
    }
    if t >= l.t1() {
      assert t - l.t0 >= l.duration;
      assert f >= 1.0;
    }
  }

  /** The state of one search: the bracket `[low, high]`, the best time found
      so far and whether any probe was under 5 NM. */
  datatype Search = Search(low: real, high: real, refined: real, found: bool)

  /** One step of the search for the start of the conflict: a probe under
      5 NM moves the upper end down and becomes the best start. */
  function StartStep(n: Numerics, l1: Leg, l2: Leg, s: Search): Search
    requires l1.duration != 0.0 && l2.duration != 0.0
  {
    var mid := (s.low + s.high) / 2.0;
    if SeparationAt(n, l1, l2, mid) < SeparationNm then Search(s.low, mid, mid, true)
    else Search(mid, s.high, s.refined, s.found)
  }

  /** One step of the search for the end of the conflict: a probe under
      5 NM moves the lower end up and becomes the best end. */
  function EndStep(n: Numerics, l1: Leg, l2: Leg, s: Search): Search
    requires l1.duration != 0.0 && l2.duration != 0.0
  {
    var mid := (s.low + s.high) / 2.0;
    if SeparationAt(n, l1, l2, mid) < SeparationNm then Search(mid, s.high, mid, true)
    else Search(s.low, mid, s.refined, s.found)
  }

  /** `k` steps of the start search. */
  function StartSearch(n: Numerics, l1: Leg, l2: Leg, s: Search, k: nat): Search
    requires l1.duration != 0.0 && l2.duration != 0.0
    decreases k
  {
    if k == 0 then s else StartSearch(n, l1, l2, StartStep(n, l1, l2, s), k - 1)
  }

  /** `k` steps of the end search. */
  function EndSearch(n: Numerics, l1: Leg, l2: Leg, s: Search, k: nat): Search
    requires l1.duration != 0.0 && l2.duration != 0.0
    decreases k
  {
    if k == 0 then s else EndSearch(n, l1, l2, EndStep(n, l1, l2, s), k - 1)
  }

  function Pow2(k: nat): (p: nat)
    ensures p >= 1
  {
    if k == 0 then 1 else 2 * Pow2(k - 1)
  }

  /** What a start search keeps: a found start is the upper end of the
      bracket and lies under 5 NM. */
  predicate StartInv(n: Numerics, l1: Leg, l2: Leg, s: Search)
    requires l1.duration != 0.0 && l2.duration != 0.0
  {
    s.low <= s.high && (s.found ==> s.refined == s.high && SeparationAt(n, l1, l2, s.refined) < SeparationNm)
  }

  /** What an end search keeps: a found end is the lower end of the bracket
      and lies under 5 NM. */
  predicate EndInv(n: Numerics, l1: Leg, l2: Leg, s: Search)
    requires l1.duration != 0.0 && l2.duration != 0.0
  {
    s.low <= s.high && (s.found ==> s.refined == s.low && SeparationAt(n, l1, l2, s.refined) < SeparationNm)
  }

  /** The start search halves its bracket at every step, never leaves it,
      keeps `StartInv`, and leaves the best start alone when no probe hits. */
  lemma {:induction false} StartSearchFacts(n: Numerics, l1: Leg, l2: Leg, s: Search, k: nat)
    requires l1.duration != 0.0 && l2.duration != 0.0
    requires StartInv(n, l1, l2, s)
    ensures var r := StartSearch(n, l1, l2, s, k);
      && StartInv(n, l1, l2, r)
      && s.low <= r.low && r.high <= s.high
      && r.high - r.low == (s.high - s.low) / (Pow2(k) as real)
      && (!r.found ==> r.refined == s.refined && !s.found)
      && (r.found && !s.found ==> s.low <= r.refined <= s.high)
    decreases k
  {
    if k > 0 {
      var s' := StartStep(n, l1, l2, s);
      assert s'.high - s'.low == (s.high - s.low) / 2.0;
      StartSearchFacts(n, l1, l2, s', k - 1);
      HalveAgain(s.high - s.low, k);
    }
  }

  /** The end search, likewise. */
  lemma {:induction false} EndSearchFacts(n: Numerics, l1: Leg, l2: Leg, s: Search, k: nat)
    requires l1.duration != 0.0 && l2.duration != 0.0
    requires EndInv(n, l1, l2, s)
    ensures var r := EndSearch(n, l1, l2, s, k);
      && EndInv(n, l1, l2, r)
      && s.low <= r.low && r.high <= s.high
      && r.high - r.low == (s.high - s.low) / (Pow2(k) as real)
      && (!r.found ==> r.refined == s.refined && !s.found)
      && (r.found && !s.found ==> s.low <= r.refined <= s.high)
    decreases k
  {
    if k > 0 {
      var s' := EndStep(n, l1, l2, s);
      assert s'.high - s'.low == (s.high - s.low) / 2.0;
      EndSearchFacts(n, l1, l2, s', k - 1);
      HalveAgain(s.high - s.low, k);
    }
  }

  /** Halving once and then `k - 1` more times is halving `k` times. */
  lemma HalveAgain(w: real, k: nat)
    requires k > 0
    ensures (w / 2.0) / (Pow2(k - 1) as real) == w / (Pow2(k) as real)
  {
    assert Pow2(k) as real == 2.0 * (Pow2(k - 1) as real);
  }

  /** The `k + 1`-th step of the start search is taken last. */
  lemma {:induction false} StartSearchLast(n: Numerics, l1: Leg, l2: Leg, s: Search, k: nat)
    requires l1.duration != 0.0 && l2.duration != 0.0
    ensures StartSearch(n, l1, l2, s, k + 1) == StartStep(n, l1, l2, StartSearch(n, l1, l2, s, k))
    decreases k
  {
    if k > 0 {
      StartSearchLast(n, l1, l2, StartStep(n, l1, l2, s), k - 1);
    }
  }

  /** The `k + 1`-th step of the end search is taken last. */
  lemma {:induction false} EndSearchLast(n: Numerics, l1: Leg, l2: Leg, s: Search, k: nat)
    requires l1.duration != 0.0 && l2.duration != 0.0
    ensures EndSearch(n, l1, l2, s, k + 1) == EndStep(n, l1, l2, EndSearch(n, l1, l2, s, k))
    decreases k
  {
    if k > 0 {
      EndSearchLast(n, l1, l2, EndStep(n, l1, l2, s), k - 1);
    }
  }

  /** One pass of the start search's loop body. */
  method StartProbe(n: Numerics, l1: Leg, l2: Leg, s: Search) returns (s': Search)
    requires l1.duration != 0.0 && l2.duration != 0.0
    ensures s' == StartStep(n, l1, l2, s)
  {
    var mid := (s.low + s.high) / 2.0;
    if SeparationAt(n, l1, l2, mid) < SeparationNm {
      s' := Search(s.low, mid, mid, true);
    } else {
      s' := Search(mid, s.high, s.refined, s.found);
    }
  }

  /** One pass of the end search's loop body. */
  method EndProbe(n: Numerics, l1: Leg, l2: Leg, s: Search) returns (s': Search)
    requires l1.duration != 0.0 && l2.duration != 0.0
    ensures s' == EndStep(n, l1, l2, s)
  {
    var mid := (s.low + s.high) / 2.0;
    if SeparationAt(n, l1, l2, mid) < SeparationNm {
      s' := Search(mid, s.high, mid, true);
    } else {
      s' := Search(s.low, mid, s.refined, s.found);
    }
  }

  /** The start search of `check_pair_conflict`: a `for` loop of `Steps`
      halvings over `[low, high]`, `refined` starting at the candidate's
      start. */
  method SearchStart(n: Numerics, l1: Leg, l2: Leg, low: real, high: real, refined: real) returns (s: Search)
    requires l1.duration != 0.0 && l2.duration != 0.0
    ensures s == StartSearch(n, l1, l2, Search(low, high, refined, false), Steps)
  {
    var s0 := Search(low, high, refined, false);
    s := s0;
    for i := 0 to Steps
      invariant s == StartSearch(n, l1, l2, s0, i)
    {
      StartSearchLast(n, l1, l2, s0, i);
      s := StartProbe(n, l1, l2, s);
    }
  }

  /** The end search of `check_pair_conflict`. */
  method SearchEnd(n: Numerics, l1: Leg, l2: Leg, low: real, high: real, refined: real) returns (s: Search)
    requires l1.duration != 0.0 && l2.duration != 0.0
    ensures s == EndSearch(n, l1, l2, Search(low, high, refined, false), Steps)
  {
    var s0 := Search(low, high, refined, false);
    s := s0;
    for i := 0 to Steps
      invariant s == EndSearch(n, l1, l2, s0, i)
    {
      EndSearchLast(n, l1, l2, s0, i);
      s := EndProbe(n, l1, l2, s);
    }
  }
}
