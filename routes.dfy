/** Flight records, waypoint parsing and route assembly
    (`FlightEngine.parse_waypoint` and `FlightEngine.get_full_route`). */
module Routes {
  import opened Wrappers
  import opened Numerics

  /** One record of the input batch. Times are seconds, speed knots, altitude feet. */
  datatype Flight = Flight(
    acid: string,
    departure: string,
    arrival: string,
    route: string,
    departureTime: real,
    speed: real,
    altitude: real,
    planeType: string)

  // ---------------------------------------------------------------------------
  // Splitting on a separator character (Python's `str.split(sep)`)
  // ---------------------------------------------------------------------------

  function CountOf(s: string, c: char): nat
  {
    if s == [] then 0 else (if s[0] == c then 1 else 0) + CountOf(s[1..], c)
  }

  /** The pieces of `s` between occurrences of `c`; empty pieces are kept. */
  function SplitOn(s: string, c: char): (parts: seq<string>)
    ensures |parts| == CountOf(s, c) + 1
    ensures forall k :: 0 <= k < |parts| ==> c !in parts[k]
  {
    if s == [] then [[]]
    else
      var rest := SplitOn(s[1..], c);
      if s[0] == c then [[]] + rest
      else [[s[0]] + rest[0]] + rest[1..]
  }

  function JoinWith(parts: seq<string>, c: char): string
    requires |parts| >= 1
  {
    if |parts| == 1 then parts[0] else parts[0] + [c] + JoinWith(parts[1..], c)
  }

  /** Splitting undoes joining, so a token `lat + "/" + lon` splits into its two halves. */
  lemma {:induction false} SplitJoin(parts: seq<string>, c: char)
    requires |parts| >= 1
    requires forall k :: 0 <= k < |parts| ==> c !in parts[k]
    ensures SplitOn(JoinWith(parts, c), c) == parts
  {
    if |parts| == 1 {
      SplitPiece(parts[0], c);
    } else {
      SplitJoin(parts[1..], c);
      SplitPrefix(parts[0], c, JoinWith(parts[1..], c));
    }
  }

  lemma {:induction false} SplitPiece(w: string, c: char)
    requires c !in w
    ensures SplitOn(w, c) == [w]
  {
    if w != [] {
      SplitPiece(w[1..], c);
      assert [w[0]] + w[1..] == w;
    }
  }

  lemma {:induction false} SplitPrefix(w: string, c: char, rest: string)
    requires c !in w
    ensures SplitOn(w + [c] + rest, c) == [w] + SplitOn(rest, c)
  {
    if w == [] {
      assert w + [c] + rest == [c] + rest;
      assert ([c] + rest)[1..] == rest;
    } else {
      assert (w + [c] + rest)[1..] == w[1..] + [c] + rest;
      SplitPrefix(w[1..], c, rest);
      assert [w[0]] + w[1..] == w;
    }
  }

  // ---------------------------------------------------------------------------
  // Splitting on whitespace (Python's `str.split()` with no argument)
  // ---------------------------------------------------------------------------

  /** The characters Python's `str.isspace` accepts. */
  predicate IsSpace(c: char)
  {
    var k := c as int;
    || 0x09 <= k <= 0x0D || 0x1C <= k <= 0x20 || k == 0x85 || k == 0xA0
    || k == 0x1680 || 0x2000 <= k <= 0x200A || k == 0x2028 || k == 0x2029
    || k == 0x202F || k == 0x205F || k == 0x3000
  }

  predicate NoSpace(w: string)
  {
    forall k :: 0 <= k < |w| ==> !IsSpace(w[k])
  }

  /** Length of the longest space-free prefix of `s`. */
  function WordLength(s: string): (n: nat)
    ensures n <= |s| && NoSpace(s[..n])
    ensures n < |s| ==> IsSpace(s[n])
  {
    if s == [] || IsSpace(s[0]) then 0
    else
      var m := WordLength(s[1..]);
      assert s[..m + 1] == [s[0]] + s[1..][..m];
      m + 1
  }

  /** The whitespace-separated tokens of `s`: runs of whitespace separate
      tokens, and leading or trailing whitespace yields no empty token. */
  function Words(s: string): (ws: seq<string>)
    ensures forall k :: 0 <= k < |ws| ==> ws[k] != [] && NoSpace(ws[k])
    decreases |s|
  {
    if s == [] then []
    else if IsSpace(s[0]) then Words(s[1..])
    else
      var n := WordLength(s);
      [s[..n]] + Words(s[n..])
  }

  function JoinSpaced(ws: seq<string>): string
  {
    if ws == [] then [] else if |ws| == 1 then ws[0] else ws[0] + " " + JoinSpaced(ws[1..])
  }

  /** Tokenising a single-space-joined list of tokens gives the list back. */
  lemma {:induction false} WordsJoin(ws: seq<string>)
    requires forall k :: 0 <= k < |ws| ==> ws[k] != [] && NoSpace(ws[k])
    ensures Words(JoinSpaced(ws)) == ws
  {
    if ws == [] {
    } else if |ws| == 1 {
      WordsOfWord(ws[0], []);
      assert ws[0] + [] == ws[0];
    } else {
      WordsJoin(ws[1..]);
      var rest := JoinSpaced(ws[1..]);
      assert ws[0] + " " + rest == ws[0] + ([' '] + rest);
      WordsOfWord(ws[0], [' '] + rest);
      assert ([' '] + rest)[1..] == rest;
    }
  }

  lemma {:induction false} WordsOfWord(w: string, rest: string)
    requires w != [] && NoSpace(w)
    requires rest == [] || IsSpace(rest[0])
    ensures Words(w + rest) == [w] + Words(rest)
  {
    WordLengthOf(w, rest);
    assert (w + rest)[..|w|] == w;
    assert (w + rest)[|w|..] == rest;
  }

  lemma {:induction false} WordLengthOf(w: string, rest: string)
    requires NoSpace(w)
    requires rest == [] || IsSpace(rest[0])
    ensures WordLength(w + rest) == |w|
  {
    if w == [] {
      assert w + rest == rest;
    } else {
      assert (w + rest)[1..] == w[1..] + rest;
      WordLengthOf(w[1..], rest);
    }
  }

  // ---------------------------------------------------------------------------
  // Decimal numbers (the plain decimal forms accepted by Python's `float`)
  // ---------------------------------------------------------------------------

  predicate IsDigit(c: char) { '0' <= c <= '9' }

  predicate AllDigits(s: string) { forall k :: 0 <= k < |s| ==> IsDigit(s[k]) }

  function DigitValue(c: char): nat
    requires IsDigit(c)
  {
    (c as int - '0' as int) as nat
  }

  /** Value of a digit string read most-significant digit first. */
  function DigitsValue(s: string): nat
    requires AllDigits(s)
  {
    if s == [] then 0 else 10 * DigitsValue(s[..|s| - 1]) + DigitValue(s[|s| - 1])
  }

  function Pow10(k: nat): (p: nat)
    ensures p >= 1
  {
    if k == 0 then 1 else 10 * Pow10(k - 1)
  }

  /** An unsigned decimal: digits, optionally one '.', at least one digit. */
  function ParseUnsigned(s: string): (r: Option<real>)
    ensures r.Some? ==> r.value >= 0.0
  {
    var parts := SplitOn(s, '.');
    if |parts| == 1 then
      if s != [] && AllDigits(s) then Some(DigitsValue(s) as real) else None
    else if |parts| == 2 then
      var whole, frac := parts[0], parts[1];
      if AllDigits(whole) && AllDigits(frac) && |whole| + |frac| > 0
      then Some(DigitsValue(whole) as real + DigitsValue(frac) as real / Pow10(|frac|) as real)
      else None
    else None
  }

  /** `float(s)` on an optionally signed decimal numeral. */
  function ParseDecimal(s: string): Option<real>
  {
    if s != [] && s[0] == '-' then
      match ParseUnsigned(s[1..])
      case Some(v) => Some(-v)
      case None => None
    else if s != [] && s[0] == '+' then ParseUnsigned(s[1..])
    else ParseUnsigned(s)
  }

  /** Decimal digits of `n`, most significant first. */
  function ShowNat(n: nat): (s: string)
    ensures s != [] && AllDigits(s)
  {
    if n < 10 then ['0' + n as char]
    else ShowNat(n / 10) + ['0' + (n % 10) as char]
  }

  lemma {:induction false} DigitsOfShowNat(n: nat)
    ensures DigitsValue(ShowNat(n)) == n
  {
    if n >= 10 {
      DigitsOfShowNat(n / 10);
      var s := ShowNat(n);
      assert s[..|s| - 1] == ShowNat(n / 10);
    }
  }

  /** Parsing the decimal digits of a whole number gives that number back,
      with or without a leading minus sign. */
  lemma ParseShowNat(n: nat)
    ensures ParseDecimal(ShowNat(n)) == Some(n as real)
    ensures ParseDecimal("-" + ShowNat(n)) == Some(-(n as real))
  {
    var s := ShowNat(n);
    DigitsOfShowNat(n);
    SplitPiece(s, '.');
    assert ("-" + s)[1..] == s;
  }

  /** A numeral with a fractional part: `w.frac` reads as
      w + frac / 10^|frac|. */
  lemma ParseFixedPoint(w: string, frac: string)
    requires w != [] && AllDigits(w) && AllDigits(frac)
    ensures ParseDecimal(w + "." + frac)
         == Some(DigitsValue(w) as real + DigitsValue(frac) as real / Pow10(|frac|) as real)
  {
    var s := w + "." + frac;
    SplitFixedPoint(w, frac);
    ParseUnsignedFixedPoint(w, frac);
    assert s[0] == w[0];
    assert IsDigit(w[0]);
  }

  lemma SplitFixedPoint(w: string, frac: string)
    requires AllDigits(w) && AllDigits(frac)
    ensures SplitOn(w + "." + frac, '.') == [w, frac]
  {
    NoDotInDigits(w);
    NoDotInDigits(frac);
    SplitJoin([w, frac], '.');
    assert JoinWith([w, frac], '.') == w + "." + frac;
  }

  lemma ParseUnsignedFixedPoint(w: string, frac: string)
    requires AllDigits(frac) && AllDigits(w) && w != []
    requires SplitOn(w + "." + frac, '.') == [w, frac]
    ensures ParseUnsigned(w + "." + frac)
         == Some(DigitsValue(w) as real + DigitsValue(frac) as real / Pow10(|frac|) as real)
  {
  }

  lemma NoDotInDigits(s: string)
    requires AllDigits(s)
    ensures '.' !in s && '-' !in s && '+' !in s
  {
  }

  // ---------------------------------------------------------------------------
  // Waypoints and routes
  // ---------------------------------------------------------------------------

  /** Python's `s[:-1]`: everything but the last character ("" stays ""). */
  function DropLast(s: string): string
  {
    if s == [] then [] else s[..|s| - 1]
  }

  predicate EndsWith(s: string, c: char)
  {
    s != [] && s[|s| - 1] == c
  }

  /** Decodes `<deg><N|S>/<deg><W|E>`: the last character of each half is
      dropped, whatever it is, and the value is negated for `S` and for `W`.
      A token without exactly one '/' or with a bad number is rejected. */
  function ParseWaypoint(token: string): (r: Option<Coord>)
    ensures CountOf(token, '/') != 1 ==> r == None
  {
    var parts := SplitOn(token, '/');
    if |parts| != 2 then None
    else
      var latText, lonText := parts[0], parts[1];
      match (ParseDecimal(DropLast(latText)), ParseDecimal(DropLast(lonText)))
      case (Some(lat), Some(lon)) =>
        Some(Coord(if EndsWith(latText, 'S') then -lat else lat,
                   if EndsWith(lonText, 'W') then -lon else lon))
      case _ => None
  }

  /** The sign convention: a token made of two numerals and two hemisphere
      letters decodes to the numerals, negated for `S` and for `W`. */
  lemma ParseWaypointHemispheres(latText: string, ns: char, lonText: string, ew: char, lat: real, lon: real)
    requires '/' !in latText && '/' !in lonText && ns != '/' && ew != '/'
    requires ParseDecimal(latText) == Some(lat) && ParseDecimal(lonText) == Some(lon)
    ensures ParseWaypoint(latText + [ns] + "/" + lonText + [ew])
         == Some(Coord(if ns == 'S' then -lat else lat, if ew == 'W' then -lon else lon))
  {
    var a, b := latText + [ns], lonText + [ew];
    assert '/' !in a && '/' !in b;
    SplitJoin([a, b], '/');
    assert JoinWith([a, b], '/') == a + "/" + b;
    assert SplitOn(a + "/" + b, '/') == [a, b];
    assert latText + [ns] + "/" + lonText + [ew] == a + "/" + b;
    assert DropLast(a) == latText;
    assert DropLast(b) == lonText;
    assert EndsWith(a, 'S') <==> ns == 'S';
    assert EndsWith(b, 'W') <==> ew == 'W';
  }

  /** Applies `parse` to every token; fails as soon as one token fails. */
  function ParseEach(parse: string -> Option<Coord>, tokens: seq<string>): (r: Option<seq<Coord>>)
    ensures r.Some? ==> |r.value| == |tokens|
  {
    if tokens == [] then Some([])
    else
      match ParseEach(parse, tokens[..|tokens| - 1])
      case None => None
      case Some(pts) =>
        match parse(tokens[|tokens| - 1])
        case None => None
        case Some(p) => Some(pts + [p])
  }

  /** Parses every route token as a waypoint. */
  function ParseAll(tokens: seq<string>): (r: Option<seq<Coord>>)
  {
    ParseEach(t => ParseWaypoint(t), tokens)
  }

  /** Parsing a token list succeeds exactly when every token parses, and then
      gives one coordinate per token, in order. */
  lemma ParseAllSpec(tokens: seq<string>)
    ensures ParseAll(tokens).Some? <==> forall k :: 0 <= k < |tokens| ==> ParseWaypoint(tokens[k]).Some?
    ensures ParseAll(tokens).Some? ==>
      |ParseAll(tokens).value| == |tokens| &&
      forall k :: 0 <= k < |tokens| ==> ParseAll(tokens).value[k] == ParseWaypoint(tokens[k]).value
  {
    var parse := t => ParseWaypoint(t);
    ParseEachSucceeds(parse, tokens);
    if ParseAll(tokens).Some? {
      ParseEachValues(parse, tokens);
    }
  }

  lemma {:induction false} ParseEachSucceeds(parse: string -> Option<Coord>, tokens: seq<string>)
    ensures ParseEach(parse, tokens).Some? <==> forall k :: 0 <= k < |tokens| ==> parse(tokens[k]).Some?
    decreases |tokens|
  {
    if tokens != [] {
      var init, last := tokens[..|tokens| - 1], tokens[|tokens| - 1];
      ParseEachSucceeds(parse, init);
      if ParseEach(parse, init).None? {
        var k :| 0 <= k < |init| && parse(init[k]).None?;
        assert init[k] == tokens[k];
      } else if parse(last).Some? {
        forall k | 0 <= k < |tokens|
          ensures parse(tokens[k]).Some?
        {
          if k < |init| {
            assert init[k] == tokens[k];
          }
        }
      }
    }
  }

  lemma {:induction false} ParseEachValues(parse: string -> Option<Coord>, tokens: seq<string>)
    requires ParseEach(parse, tokens).Some?
    ensures forall k :: 0 <= k < |tokens| ==> parse(tokens[k]).Some? && ParseEach(parse, tokens).value[k] == parse(tokens[k]).value
    decreases |tokens|
  {
    if tokens != [] {
      var init, last := tokens[..|tokens| - 1], tokens[|tokens| - 1];
      ParseEachValues(parse, init);
      var pts := ParseEach(parse, init).value;
      assert ParseEach(parse, tokens).value == pts + [parse(last).value];
      forall k | 0 <= k < |tokens|
        ensures parse(tokens[k]).Some? && ParseEach(parse, tokens).value[k] == parse(tokens[k]).value
      {
        if k < |init| {
          assert init[k] == tokens[k];
        }
      }
    }
  }

  /** The route point an airport code contributes: its coordinate when the
      code is in the table, nothing otherwise. */
  function Endpoint(airports: map<string, Coord>, code: string): (pts: seq<Coord>)
    ensures |pts| <= 1
  {
    if code in airports then [airports[code]] else []
  }

  /** Specification of `get_full_route`. */
  function Route(airports: map<string, Coord>, f: Flight): Option<seq<Coord>>
  {
    match ParseAll(Words(f.route))
    case None => None
    case Some(pts) => Some(Endpoint(airports, f.departure) + pts + Endpoint(airports, f.arrival))
  }

  /** A route is the optional departure point, one point per route token in
      order, then the optional arrival point; it fails exactly when some
      token does not parse. */
  lemma RouteFails(airports: map<string, Coord>, f: Flight)
    ensures Route(airports, f).None? <==> exists k :: 0 <= k < |Words(f.route)| && ParseWaypoint(Words(f.route)[k]).None?
  {
    var ws := Words(f.route);
    ParseAllSpec(ws);
    if ParseAll(ws).None? {
      var k :| 0 <= k < |ws| && ParseWaypoint(ws[k]).None?;
    }
  }

  lemma RouteShape(airports: map<string, Coord>, f: Flight)
    ensures Route(airports, f).Some? ==>
      var pts, ws, d := Route(airports, f).value, Words(f.route), |Endpoint(airports, f.departure)|;
      && |pts| == d + |ws| + |Endpoint(airports, f.arrival)|
      && (f.departure in airports ==> pts[0] == airports[f.departure])
      && (forall k :: 0 <= k < |ws| ==> ParseWaypoint(ws[k]) == Some(pts[d + k]))
      && (f.arrival in airports ==> pts[|pts| - 1] == airports[f.arrival])
  {
    if Route(airports, f).Some? {
      PointsShape(airports, f.departure, f.arrival, Words(f.route));
    }
  }

  /** `RouteShape` for any token list. */
  lemma PointsShape(airports: map<string, Coord>, departure: string, arrival: string, ws: seq<string>)
    requires ParseAll(ws).Some?
    ensures var pts, d := Endpoint(airports, departure) + ParseAll(ws).value + Endpoint(airports, arrival),
                          |Endpoint(airports, departure)|;
      && |pts| == d + |ws| + |Endpoint(airports, arrival)|
      && (departure in airports ==> pts[0] == airports[departure])
      && (forall k :: 0 <= k < |ws| ==> ParseWaypoint(ws[k]) == Some(pts[d + k]))
      && (arrival in airports ==> pts[|pts| - 1] == airports[arrival])
  {
    ParseAllSpec(ws);
    var d, a := Endpoint(airports, departure), Endpoint(airports, arrival);
    var parsed := ParseAll(ws).value;
    var pts := d + parsed + a;
    Concat3(d, parsed, a);
    forall k | 0 <= k < |ws|
      ensures ParseWaypoint(ws[k]) == Some(pts[|d| + k])
    {
      assert pts[|d| + k] == parsed[k];
    }
  }

  /** Indexing into `d + p + a`. */
  lemma Concat3(d: seq<Coord>, p: seq<Coord>, a: seq<Coord>)
    ensures |d + p + a| == |d| + |p| + |a|
    ensures d != [] ==> (d + p + a)[0] == d[0]
    ensures forall k :: 0 <= k < |p| ==> (d + p + a)[|d| + k] == p[k]
    ensures a != [] ==> (d + p + a)[|d + p + a| - 1] == a[|a| - 1]
  {
  }

  /** The loop of `get_full_route` over the route tokens: appends one parsed
      point per token and gives up at the first token that does not parse. */
  method ParseTokens(tokens: seq<string>) returns (r: Option<seq<Coord>>)
    ensures r == ParseAll(tokens)
  {
    ghost var parse := t => ParseWaypoint(t);
    var points: seq<Coord> := [];
    var i := 0;
    while i < |tokens|
      invariant 0 <= i <= |tokens|
      invariant ParseEach(parse, tokens[..i]) == Some(points)
    {
      var p := ParseWaypoint(tokens[i]);
      assert p == parse(tokens[i]);
      if p.None? {
        ParseAllFails(tokens, i);
        return None;
      }
      assert tokens[..i + 1][..i] == tokens[..i];
      points := points + [p.value];
      i := i + 1;
    }
    assert tokens[..i] == tokens;
    r := Some(points);
  }

  lemma ParseAllFails(tokens: seq<string>, i: nat)
    requires i < |tokens| && ParseWaypoint(tokens[i]).None?
    ensures ParseAll(tokens).None?
  {
    ParseAllSpec(tokens);
  }

  /** `get_full_route`: appends the departure point, each parsed token and
      the arrival point; a token that fails to parse aborts the whole route. */
  method FullRoute(airports: map<string, Coord>, f: Flight) returns (r: Option<seq<Coord>>)
    ensures r == Route(airports, f)
  {
    var points: seq<Coord> := [];
    if f.departure in airports {
      points := points + [airports[f.departure]];
    }
    assert points == Endpoint(airports, f.departure);
    var parsed: seq<Coord> := [];
    if f.route != [] {
      var tokens := ParseTokens(Words(f.route));
      if tokens.None? {
        return None;
      }
      parsed := tokens.value;
    }
    assert ParseAll(Words(f.route)) == Some(parsed);
    points := points + parsed;
    if f.arrival in airports {
      points := points + [airports[f.arrival]];
    }
    assert points == Endpoint(airports, f.departure) + parsed + Endpoint(airports, f.arrival);
    r := Some(points);
  }
}
