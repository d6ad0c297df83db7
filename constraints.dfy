/** `get_constraints`: the altitude and speed bands of an aircraft type,
    chosen by the first rule whose name fragments occur in the type string. */
module Constraints {

  /** Altitudes in feet, speeds in knots. */
  datatype Limits = Limits(minAlt: int, maxAlt: int, minSpeed: int, maxSpeed: int)

  /** `sub` is a prefix of `s`. */
  predicate StartsWith(s: string, sub: string)
  {
    |sub| <= |s| && s[..|sub|] == sub
  }

  /** Python's `sub in s` on strings: `sub` occurs somewhere in `s`. */
  predicate Contains(s: string, sub: string)
    decreases |s|
  {
    StartsWith(s, sub) || (s != [] && Contains(s[1..], sub))
  }

  /** `sub` occurs in `s` at position `i`. */
  predicate OccursAt(s: string, sub: string, i: int)
  {
    0 <= i && i + |sub| <= |s| && s[i..i + |sub|] == sub
  }

  /** `Contains` is occurrence at some position. */
  lemma {:induction false} ContainsAt(s: string, sub: string)
    ensures Contains(s, sub) <==> exists i :: OccursAt(s, sub, i)
    decreases |s|
  {
    if StartsWith(s, sub) {
      assert OccursAt(s, sub, 0);
    }
    if s != [] {
      ContainsAt(s[1..], sub);
      if Contains(s[1..], sub) {
        var i :| OccursAt(s[1..], sub, i);
        assert s[1..][i..i + |sub|] == s[i + 1..i + 1 + |sub|];
        assert OccursAt(s, sub, i + 1);
      }
      if i :| OccursAt(s, sub, i) {
        if i > 0 {
          assert s[1..][i - 1..i - 1 + |sub|] == s[i..i + |sub|];
          assert OccursAt(s[1..], sub, i - 1);
        }
      }
    } else {
      if i :| OccursAt(s, sub, i) {
        assert sub == [] && StartsWith(s, sub);
      }
    }
  }

  /** `any(x in plane_type for x in names)`. */
  predicate AnyIn(s: string, names: seq<string>)
  {
    exists k :: 0 <= k < |names| && Contains(s, names[k])
  }

  /** `get_constraints`, branch for branch. */
  function GetConstraints(planeType: string): (r: Limits)
    ensures r.minAlt <= r.maxAlt && r.minSpeed <= r.maxSpeed
  {
    if Contains(planeType, "Dash 8") then Limits(22000, 28000, 310, 410)
    else if AnyIn(planeType, ["E195", "A220"]) then
      var (altMin, altMax) := if Contains(planeType, "A220") then (28000, 39000) else (22000, 28000);
      Limits(altMin, altMax, 370, 500)
    else if AnyIn(planeType, ["737", "A320", "A321"]) then Limits(28000, 39000, 415, 505)
    else if AnyIn(planeType, ["787", "777", "A330"]) then Limits(31000, 43000, 430, 505)
    else if AnyIn(planeType, ["767", "757", "A300"]) then Limits(28000, 41000, 410, 505)
    else Fallback
  }

  /** The bands of a type no rule names. */
  const Fallback := Limits(20000, 45000, 300, 600)

  /** One row of the classification table: the name fragments that select
      it and its bands. */
  datatype Rule = Rule(names: seq<string>, limits: Limits)

  /** The table read top to bottom, the A220 case of the regional rule
      given its own row ahead of the E195 row. */
  const Table: seq<Rule> := [
    Rule(["Dash 8"], Limits(22000, 28000, 310, 410)),
    Rule(["A220"], Limits(28000, 39000, 370, 500)),
    Rule(["E195"], Limits(22000, 28000, 370, 500)),
    Rule(["737", "A320", "A321"], Limits(28000, 39000, 415, 505)),
    Rule(["787", "777", "A330"], Limits(31000, 43000, 430, 505)),
    Rule(["767", "757", "A300"], Limits(28000, 41000, 410, 505))]

  /** The bands of the first row of `rules` one of whose fragments occurs
      in `s`; the fallback when none does. */
  function FirstMatch(rules: seq<Rule>, s: string): Limits
  {
    if rules == [] then Fallback
    else if AnyIn(s, rules[0].names) then rules[0].limits
    else FirstMatch(rules[1..], s)
  }

  /** `FirstMatch` picks row `k` exactly when row `k` matches and no row
      above it does; the fallback when no row matches. */
  lemma {:induction false} FirstMatchRow(rules: seq<Rule>, s: string, k: nat)
    requires k < |rules|
    requires AnyIn(s, rules[k].names)
    requires forall m :: 0 <= m < k ==> !AnyIn(s, rules[m].names)
    ensures FirstMatch(rules, s) == rules[k].limits
    decreases k
  {
    if k > 0 {
      assert !AnyIn(s, rules[0].names);
      FirstMatchRow(rules[1..], s, k - 1);
    }
  }

  lemma {:induction false} FirstMatchNone(rules: seq<Rule>, s: string)
    requires forall m :: 0 <= m < |rules| ==> !AnyIn(s, rules[m].names)
    ensures FirstMatch(rules, s) == Fallback
    decreases |rules|
  {
    if rules != [] {
      assert !AnyIn(s, rules[0].names);
      FirstMatchNone(rules[1..], s);
    }
  }

  lemma AnyInOne(s: string, a: string)
    ensures AnyIn(s, [a]) <==> Contains(s, a)
  {
    if Contains(s, a) {
      assert Contains(s, [a][0]);
    }
  }

  lemma AnyInThree(s: string, a: string, b: string, c: string)
    ensures AnyIn(s, [a, b, c]) <==> Contains(s, a) || Contains(s, b) || Contains(s, c)
  {
    if Contains(s, a) {
      assert Contains(s, [a, b, c][0]);
    } else if Contains(s, b) {
      assert Contains(s, [a, b, c][1]);
    } else if Contains(s, c) {
      assert Contains(s, [a, b, c][2]);
    }
  }

  lemma AnyInTwo(s: string, a: string, b: string)
    ensures AnyIn(s, [a, b]) <==> Contains(s, a) || Contains(s, b)
  {
    if Contains(s, a) {
      assert Contains(s, [a, b][0]);
    } else if Contains(s, b) {
      assert Contains(s, [a, b][1]);
    }
  }

  /** The branches of `get_constraints` are the rows of the table, taken
      in order. */
  lemma ConstraintsTable(planeType: string)
    ensures GetConstraints(planeType) == FirstMatch(Table, planeType)
  {
    var s := planeType;
    AnyInOne(s, "Dash 8");
    AnyInOne(s, "A220");
    AnyInOne(s, "E195");
    AnyInTwo(s, "E195", "A220");
    AnyInThree(s, "737", "A320", "A321");
    AnyInThree(s, "787", "777", "A330");
    AnyInThree(s, "767", "757", "A300");
    if AnyIn(s, Table[0].names) {
      FirstMatchRow(Table, s, 0);
    } else if AnyIn(s, Table[1].names) {
      FirstMatchRow(Table, s, 1);
    } else if AnyIn(s, Table[2].names) {
      FirstMatchRow(Table, s, 2);
    } else if AnyIn(s, Table[3].names) {
      FirstMatchRow(Table, s, 3);
    } else if AnyIn(s, Table[4].names) {
      FirstMatchRow(Table, s, 4);
    } else if AnyIn(s, Table[5].names) {
      FirstMatchRow(Table, s, 5);
    } else {
      FirstMatchNone(Table, s);
    }
  }

  /** A type that names the A220 and not the Dash 8 gets narrow-body
      altitudes with regional speeds. */
  lemma A220Bands(planeType: string)
    requires Contains(planeType, "A220") && !Contains(planeType, "Dash 8")
    ensures GetConstraints(planeType) == Limits(28000, 39000, 370, 500)
  {
    AnyInTwo(planeType, "E195", "A220");
  }

  /** Every character of an occurring fragment is a character of the type. */
  lemma Present(s: string, sub: string, c: char)
    requires Contains(s, sub) && c in sub
    ensures c in s
  {
    ContainsAt(s, sub);
    var i :| OccursAt(s, sub, i);
    var k :| 0 <= k < |sub| && sub[k] == c;
    assert s[i..i + |sub|][k] == s[i + k];
  }

  /** A fragment holding a character the type lacks does not occur in it. */
  lemma Absent(s: string, sub: string, c: char)
    requires c in sub && c !in s
    ensures !Contains(s, sub)
  {
    if Contains(s, sub) {
      Present(s, sub, c);
    }
  }

  /** Examples: the first rule a type matches decides. */
  lemma NarrowBodyExample(s: string)
    requires s == "Boeing 737-800"
    ensures GetConstraints(s) == Limits(28000, 39000, 415, 505)
  {
    assert 'D' !in s && 'E' !in s && 'A' !in s;
    Absent(s, "Dash 8", 'D');
    Absent(s, "E195", 'E');
    Absent(s, "A220", 'A');
    AnyInTwo(s, "E195", "A220");
    assert OccursAt(s, "737", 7);
    ContainsAt(s, "737");
    AnyInThree(s, "737", "A320", "A321");
  }

  lemma A220Example(s: string)
    requires s == "Airbus A220-300"
    ensures GetConstraints(s) == Limits(28000, 39000, 370, 500)
  {
    Absent(s, "Dash 8", 'D');
    assert OccursAt(s, "A220", 7);
    ContainsAt(s, "A220");
    A220Bands(s);
  }

  lemma FallbackExample(s: string)
    requires s == "Cessna 208"
    ensures GetConstraints(s) == Fallback
  {
    Absent(s, "Dash 8", 'D');
    Absent(s, "E195", 'E');
    Absent(s, "A220", 'A');
    AnyInTwo(s, "E195", "A220");
    Absent(s, "737", '7');
    Absent(s, "A320", 'A');
    Absent(s, "A321", 'A');
    AnyInThree(s, "737", "A320", "A321");
    Absent(s, "787", '7');
    Absent(s, "777", '7');
    Absent(s, "A330", 'A');
    AnyInThree(s, "787", "777", "A330");
    Absent(s, "767", '7');
    Absent(s, "757", '7');
    Absent(s, "A300", 'A');
    AnyInThree(s, "767", "757", "A300");
  }
}
