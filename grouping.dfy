/** The first steps of `find_conflicts`: the legs grouped by ACID in order
    of first appearance, and the sorted-pair key of its `processed_pairs`
    set. */
module Grouping {
  import opened Legs

  /** The ACIDs of `legs` in order of first appearance: the key order of
      the `flight_legs` dictionary. */
  function AcidOrder(legs: seq<Leg>): seq<string>
  {
    if legs == [] then []
    else
      var acids := AcidOrder(legs[..|legs| - 1]);
      var a := legs[|legs| - 1].acid;
      if a in acids then acids else acids + [a]
  }

  predicate Distinct(s: seq<string>)
  {
    forall i, j :: 0 <= i < j < |s| ==> s[i] != s[j]
  }

  /** Each ACID of the legs is listed exactly once, and nothing else is. */
  lemma {:induction false} AcidOrderFacts(legs: seq<Leg>)
    ensures Distinct(AcidOrder(legs))
    ensures forall a :: a in AcidOrder(legs) <==> exists l :: l in legs && l.acid == a
    decreases |legs|
  {
    if legs != [] {
      var init := legs[..|legs| - 1];
      AcidOrderFacts(init);
      assert legs == init + [legs[|legs| - 1]];
    }
  }

  /** More legs only add ACIDs at the end: the order of the first
      appearances is kept. */
  lemma {:induction false} AcidOrderPrefix(legs: seq<Leg>, k: nat)
    requires k <= |legs|
    ensures AcidOrder(legs[..k]) <= AcidOrder(legs)
    decreases |legs|
  {
    if k < |legs| {
      var init := legs[..|legs| - 1];
      assert legs[..k] == init[..k];
      AcidOrderPrefix(init, k);
    } else {
      assert legs[..k] == legs;
    }
  }

  /** The grouping loop of `find_conflicts`: the ACIDs in first-appearance
      order and, for each, its legs in their original order. */
  method GroupLegs(legs: seq<Leg>) returns (acids: seq<string>, groups: map<string, seq<Leg>>)
    ensures acids == AcidOrder(legs)
    ensures forall a :: a in groups <==> a in acids
    ensures forall a :: a in groups ==> groups[a] == LegsWithAcid(legs, a)
  {
    acids := [];
    groups := map[];
    for k := 0 to |legs|
      invariant acids == AcidOrder(legs[..k])
      invariant forall a :: a in groups <==> a in acids
      invariant forall a :: a in groups ==> groups[a] == LegsWithAcid(legs[..k], a)
    {
      var l := legs[k];
      assert legs[..k + 1][..k] == legs[..k];
      if l.acid !in groups {
        AcidOrderFacts(legs[..k]);
        forall l' | l' in legs[..k] ensures l'.acid != l.acid {
        }
        LegsWithAcidNone(legs[..k], l.acid);
        groups := groups[l.acid := []];
        acids := acids + [l.acid];
      }
      groups := groups[l.acid := groups[l.acid] + [l]];
    }
    assert legs[..|legs|] == legs;
  }

  /** Python's `<=` on strings: lexicographic by code point, a proper prefix
      first. */
  predicate StrLe(a: string, b: string)
    decreases |a|
  {
    if a == [] then true
    else if b == [] then false
    else if a[0] != b[0] then a[0] < b[0]
    else StrLe(a[1..], b[1..])
  }

  /** Any two strings are ordered one way or the other. */
  lemma {:induction false} StrLeTotal(a: string, b: string)
    ensures StrLe(a, b) || StrLe(b, a)
    decreases |a|
  {
    if a != [] && b != [] && a[0] == b[0] {
      StrLeTotal(a[1..], b[1..]);
    }
  }

  /** Strings ordered both ways are equal. */
  lemma {:induction false} StrLeAntisymmetric(a: string, b: string)
    requires StrLe(a, b) && StrLe(b, a)
    ensures a == b
    decreases |a|
  {
    if a != [] {
      StrLeAntisymmetric(a[1..], b[1..]);
      assert a == [a[0]] + a[1..] && b == [b[0]] + b[1..];
    }
  }

  /** `tuple(sorted([a, b]))`: the two ACIDs, smaller first. */
  function Key(a: string, b: string): (k: (string, string))
    ensures k == (a, b) || k == (b, a)
    ensures StrLe(k.0, k.1)
  {
    StrLeTotal(a, b);
    if StrLe(a, b) then (a, b) else (b, a)
  }

  /** Two keys are equal exactly when they are keys of the same unordered
      pair. */
  lemma KeyUnordered(a: string, b: string, c: string, d: string)
    ensures Key(a, b) == Key(c, d) <==> {a, b} == {c, d}
  {
    if {a, b} == {c, d} {
      assert a in {c, d} && b in {c, d} && c in {a, b} && d in {a, b};
      if Key(a, b) != Key(c, d) {
        var k, m := Key(a, b), Key(c, d);
        assert k.0 == m.1 && k.1 == m.0;
        StrLeAntisymmetric(k.0, k.1);
      }
    }
    if Key(a, b) == Key(c, d) {
      assert {a, b} == {Key(a, b).0, Key(a, b).1};
    }
  }
}
