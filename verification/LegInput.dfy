/**
 The key a leg's calculation is stored under (LegInput and SegmentInput in
 backend/internal/domain/leg.go and legsegment.go): a text that is the same for
 two legs exactly when the same calculation answers both.
 */
module LegInput {
  import opened Common
  import opened Polyline
  import opened Document

  const DIGITS: string := "0123456789"

  function ModeText(mode: TravelMode): string {
    match mode
    case Walk => "walk"
    case Car => "car"
    case Bike => "bike"
    case Transit => "transit"
    case Bus => "bus"
    case Train => "train"
    case Tram => "tram"
    case Ferry => "ferry"
    case Flight => "flight"
    case CableCar => "cable_car"
    case OtherMode => "other"
  }

  function Decimal(n: nat): (s: string)
    ensures |s| >= 1
    ensures forall c :: c in s ==> '0' <= c <= '9'
  {
    if n < 10 then [DIGITS[n]] else Decimal(n / 10) + [DIGITS[n % 10]]
  }

  /** The five digits after the point. */
  function Fraction(n: nat, places: nat): (s: string)
    ensures |s| == places
    ensures forall c :: c in s ==> '0' <= c <= '9'
  {
    if places == 0 then "" else Fraction(n / 10, places - 1) + [DIGITS[n % 10]]
  }

  /** A number of units of the fifth decimal, printed with five decimals. */
  function Fixed(n: int): string {
    var size := if n < 0 then -n else n;
    (if n < 0 then "-" else "") + (Decimal(size / 100000) + "." + Fraction(size % 100000, 5))
  }

  function PointText(point: Option<Point>): string {
    match point
    case None => "?"
    case Some(p) => Fixed(p.lat) + "," + Fixed(p.lng)
  }

  function Join(points: seq<Point>): string
    requires points != []
  {
    if |points| == 1 then PointText(Some(points[0])) else PointText(Some(points[0])) + ";" + Join(points[1..])
  }

  function PreferencePart(preference: Preference): string {
    if preference == Shortest then "|shortest" else ""
  }

  function ViaPart(via: seq<Point>): string {
    if via == [] then "" else "|via:" + Join(via)
  }

  /** How a leg that follows roads asks to be routed; nothing for the default way. */
  function Tail(mode: TravelMode, route: LegRoute): string {
    if mode.Routed() then PreferencePart(route.preference) + ViaPart(route.via) else ""
  }

  function Fields(mode: string, from: string, to: string, tail: string): string {
    mode + "|" + (from + "|" + (to + tail))
  }

  /** The input of a leg's calculation. */
  function Input(mode: TravelMode, from: Option<Point>, to: Option<Point>, route: LegRoute): string {
    Fields(ModeText(mode), PointText(from), PointText(to), Tail(mode, route))
  }

  const DEFAULT_ROUTE: LegRoute := LegRoute(Unset, [])

  /** A part of a leg is always routed the default way. */
  function PartInput(mode: TravelMode, from: Option<Point>, to: Option<Point>): string {
    Input(mode, from, to, DEFAULT_ROUTE)
  }

  // ------------------------------------------------------------ unambiguity

  /** Text up to a separator it does not contain is found again. */
  lemma Cut(sep: char, a: string, s: string, b: string, t: string)
    requires sep !in a && sep !in b
    requires s == "" || s[0] == sep
    requires t == "" || t[0] == sep
    requires a + s == b + t
    ensures a == b && s == t
  {
    var w := a + s;
    assert s != "" ==> w[|a|] == sep;
    assert t != "" ==> (b + t)[|b|] == sep;
    assert forall i :: 0 <= i < |a| ==> w[i] == a[i] && a[i] in a;
    assert forall i :: 0 <= i < |b| ==> w[i] == (b + t)[i] == b[i] && b[i] in b;
    assert |a| == |b|;
    assert a == (a + s)[..|a|] && b == (b + t)[..|b|];
    assert s == (a + s)[|a|..] && t == (b + t)[|b|..];
  }

  lemma DigitsDiffer(m: nat, n: nat)
    requires m < 10 && n < 10 && DIGITS[m] == DIGITS[n]
    ensures m == n
  {
  }

  lemma LastChar(a: string, x: char, b: string, y: char)
    requires a + [x] == b + [y]
    ensures a == b && x == y
  {
    assert x == (a + [x])[|a|] && y == (b + [y])[|b|];
    assert a == (a + [x])[..|a|] && b == (b + [y])[..|b|];
  }

  lemma {:induction false} DecimalInjective(m: nat, n: nat)
    requires Decimal(m) == Decimal(n)
    ensures m == n
  {
    assert m < 10 <==> |Decimal(m)| == 1;
    assert n < 10 <==> |Decimal(n)| == 1;
    if m < 10 {
      DigitsDiffer(m, n);
    } else {
      LastChar(Decimal(m / 10), DIGITS[m % 10], Decimal(n / 10), DIGITS[n % 10]);
      DecimalInjective(m / 10, n / 10);
      DigitsDiffer(m % 10, n % 10);
    }
  }

  lemma {:induction false} FractionInjective(m: nat, n: nat, places: nat)
    requires Fraction(m, places) == Fraction(n, places)
    requires m < Tens(places) && n < Tens(places)
    ensures m == n
  {
    if places > 0 {
      LastChar(Fraction(m / 10, places - 1), DIGITS[m % 10], Fraction(n / 10, places - 1), DIGITS[n % 10]);
      FractionInjective(m / 10, n / 10, places - 1);
      DigitsDiffer(m % 10, n % 10);
    }
  }

  function Tens(places: nat): (tens: nat)
    ensures tens >= 1
  {
    if places == 0 then 1 else 10 * Tens(places - 1)
  }

  lemma FiveTens()
    ensures Tens(5) == 100000
  {
    assert Tens(3) == 1000;
  }

  lemma FixedInjective(m: int, n: int)
    requires Fixed(m) == Fixed(n)
    ensures m == n
  {
    hide Decimal;
    hide Fraction;
    hide Tens;
    FiveTens();
    var k, l := if m < 0 then -m else m, if n < 0 then -n else n;
    var a, b := Decimal(k / 100000), Decimal(l / 100000);
    var s, t := Fraction(k % 100000, 5), Fraction(l % 100000, 5);
    assert Fixed(m)[0] == (if m < 0 then '-' else a[0]);
    assert Fixed(n)[0] == (if n < 0 then '-' else b[0]);
    assert a[0] in a && b[0] in b;
    assert m < 0 <==> n < 0;
    var start := if m < 0 then 1 else 0;
    assert Fixed(m)[start..] == a + "." + s && Fixed(n)[start..] == b + "." + t;
    assert a + "." + s == a + ("." + s) && b + "." + t == b + ("." + t);
    Cut('.', a, "." + s, b, "." + t);
    assert s == ("." + s)[1..] && t == ("." + t)[1..];
    DecimalInjective(k / 100000, l / 100000);
    FractionInjective(k % 100000, l % 100000, 5);
  }

  lemma FixedChars(n: int)
    ensures forall c :: c in Fixed(n) ==> '0' <= c <= '9' || c == '-' || c == '.'
    ensures Fixed(n) != "" && Fixed(n)[0] != '?'
  {
    var size := if n < 0 then -n else n;
    var a := Decimal(size / 100000);
    assert Fixed(n)[0] == (if n < 0 then '-' else a[0]);
    assert a[0] in a;
  }

  lemma PointInjective(p: Option<Point>, q: Option<Point>)
    requires PointText(p) == PointText(q)
    ensures p == q
  {
    hide Fixed;
    if p.Some? {
      FixedChars(p.value.lat);
      assert PointText(p)[0] == Fixed(p.value.lat)[0];
    }
    if q.Some? {
      FixedChars(q.value.lat);
      assert PointText(q)[0] == Fixed(q.value.lat)[0];
    }
    assert p.None? ==> PointText(p)[0] == '?';
    assert q.None? ==> PointText(q)[0] == '?';
    if p.Some? && q.Some? {
      var a, b := "," + Fixed(p.value.lng), "," + Fixed(q.value.lng);
      assert PointText(p) == Fixed(p.value.lat) + a && PointText(q) == Fixed(q.value.lat) + b;
      Cut(',', Fixed(p.value.lat), a, Fixed(q.value.lat), b);
      assert Fixed(p.value.lng) == a[1..] && Fixed(q.value.lng) == b[1..];
      FixedInjective(p.value.lat, q.value.lat);
      FixedInjective(p.value.lng, q.value.lng);
    }
  }

  lemma PointChars(p: Option<Point>)
    ensures '|' !in PointText(p) && ';' !in PointText(p)
  {
    hide Fixed;
    if p.Some? {
      FixedChars(p.value.lat);
      FixedChars(p.value.lng);
    }
  }

  lemma {:induction false} JoinInjective(v: seq<Point>, w: seq<Point>)
    requires v != [] && w != []
    requires Join(v) == Join(w)
    ensures v == w
  {
    hide PointText;
    var a, b := PointText(Some(v[0])), PointText(Some(w[0]));
    PointChars(Some(v[0]));
    PointChars(Some(w[0]));
    var s := if |v| == 1 then "" else ";" + Join(v[1..]);
    var t := if |w| == 1 then "" else ";" + Join(w[1..]);
    assert Join(v) == a + s && Join(w) == b + t;
    Cut(';', a, s, b, t);
    PointInjective(Some(v[0]), Some(w[0]));
    if |v| > 1 {
      assert |w| > 1;
      assert Join(v[1..]) == s[1..] && Join(w[1..]) == t[1..];
      JoinInjective(v[1..], w[1..]);
      assert v == [v[0]] + v[1..] && w == [w[0]] + w[1..];
    }
  }

  lemma ModeInjective(m: TravelMode, n: TravelMode)
    requires ModeText(m) == ModeText(n)
    ensures m == n
  {
    assert |ModeText(m)| == |ModeText(n)| && ModeText(m)[0] == ModeText(n)[0];
  }

  lemma RouteInjective(p: LegRoute, q: LegRoute)
    requires PreferencePart(p.preference) + ViaPart(p.via) == PreferencePart(q.preference) + ViaPart(q.via)
    ensures p.preference == Shortest <==> q.preference == Shortest
    ensures p.via == q.via
  {
    hide Join;
    var s := PreferencePart(p.preference) + ViaPart(p.via);
    var t := PreferencePart(q.preference) + ViaPart(q.via);
    assert p.preference == Shortest ==> s[1] == 's';
    assert q.preference == Shortest ==> t[1] == 's';
    assert p.preference != Shortest ==> s == ViaPart(p.via) && (s == "" || s[1] == 'v');
    assert q.preference != Shortest ==> t == ViaPart(q.via) && (t == "" || t[1] == 'v');
    var skip := if p.preference == Shortest then |"|shortest"| else 0;
    assert s[skip..] == ViaPart(p.via) && t[skip..] == ViaPart(q.via);
    if p.via != [] || q.via != [] {
      assert Join(p.via) == ViaPart(p.via)[|"|via:"|..] && Join(q.via) == ViaPart(q.via)[|"|via:"|..];
      JoinInjective(p.via, q.via);
    }
  }

  lemma TailStarts(mode: TravelMode, route: LegRoute)
    ensures Tail(mode, route) == "" || Tail(mode, route)[0] == '|'
  {
  }

  lemma FieldsInjective(a: string, b: string, c: string, d: string, a': string, b': string, c': string, d': string)
    requires '|' !in a && '|' !in b && '|' !in c && '|' !in a' && '|' !in b' && '|' !in c'
    requires d == "" || d[0] == '|'
    requires d' == "" || d'[0] == '|'
    requires Fields(a, b, c, d) == Fields(a', b', c', d')
    ensures a == a' && b == b' && c == c' && d == d'
  {
    var s, t := c + d, c' + d';
    var u, v := b + ("|" + s), b' + ("|" + t);
    assert Fields(a, b, c, d) == a + ("|" + u) && Fields(a', b', c', d') == a' + ("|" + v);
    Cut('|', a, "|" + u, a', "|" + v);
    assert ("|" + u)[1..] == u && ("|" + v)[1..] == v;
    Cut('|', b, "|" + s, b', "|" + t);
    assert ("|" + s)[1..] == s && ("|" + t)[1..] == t;
    Cut('|', c, d, c', d');
  }

  /** Two inputs are the same exactly when the mode and both ends are and, for a
      mode that follows roads, the preference and the via points are too. */
  lemma Unambiguous(m: TravelMode, from: Option<Point>, to: Option<Point>, p: LegRoute,
                    n: TravelMode, from': Option<Point>, to': Option<Point>, q: LegRoute)
    ensures Input(m, from, to, p) == Input(n, from', to', q) <==>
              && m == n && from == from' && to == to'
              && (m.Routed() ==> (p.preference == Shortest <==> q.preference == Shortest) && p.via == q.via)
  {
    hide PointText;
    hide ViaPart;
    hide ModeText;
    hide Fields;
    if Input(m, from, to, p) == Input(n, from', to', q) {
      ModeChars(m);
      ModeChars(n);
      PointChars(from);
      PointChars(from');
      PointChars(to);
      PointChars(to');
      TailStarts(m, p);
      TailStarts(n, q);
      FieldsInjective(ModeText(m), PointText(from), PointText(to), Tail(m, p),
                      ModeText(n), PointText(from'), PointText(to'), Tail(n, q));
      ModeInjective(m, n);
      PointInjective(from, from');
      PointInjective(to, to');
      if m.Routed() {
        RouteInjective(p, q);
      }
    }
  }

  lemma ModeChars(mode: TravelMode)
    ensures '|' !in ModeText(mode)
  {
  }

  // ------------------------------------------------------------ the default way

  /** The input names a mode and two ends, and no way of routing. */
  predicate DefaultRouted(input: string) {
    |Split(input, '|')| == 3
  }

  lemma {:induction false} SplitField(field: string, rest: string)
    requires '|' !in field
    ensures |Split(field, '|')| == 1 && |Split(field + "|" + rest, '|')| == 1 + |Split(rest, '|')|
  {
    assert ("|" + rest)[1..] == rest && field + "|" + rest == field + ("|" + rest) && field + "" == field;
    SplitBody(field, "|" + rest, '|');
    SplitBody(field, "", '|');
  }

  /** An input names no way of routing exactly when its leg asks for none, and then it is that
      of the default way. */
  lemma DefaultRoutedIs(mode: TravelMode, from: Option<Point>, to: Option<Point>, route: LegRoute)
    ensures DefaultRouted(Input(mode, from, to, route)) <==> Tail(mode, route) == ""
    ensures DefaultRouted(Input(mode, from, to, route)) <==>
              Input(mode, from, to, route) == Input(mode, from, to, DEFAULT_ROUTE)
  {
    hide PointText;
    hide ModeText;
    hide Split;
    var a, b, c, tail := ModeText(mode), PointText(from), PointText(to), Tail(mode, route);
    ModeChars(mode);
    PointChars(from);
    PointChars(to);
    TailStarts(mode, route);
    hide Tail;
    assert Fields(a, b, c, tail) == a + "|" + (b + "|" + (c + tail));
    SplitField(a, b + "|" + (c + tail));
    SplitField(b, c + tail);
    if tail != "" {
      assert tail == "|" + tail[1..] && c + tail == c + "|" + tail[1..];
      SplitField(c, tail[1..]);
    } else {
      assert c + tail == c;
      SplitField(c, "");
    }
    assert Tail(mode, DEFAULT_ROUTE) == "" by {
      NoTail(mode);
    }
    assert |Fields(a, b, c, tail)| == |Fields(a, b, c, "")| + |tail|;
  }

  lemma NoTail(mode: TravelMode)
    ensures Tail(mode, DEFAULT_ROUTE) == "" && Tail(mode, LegRoute(Fastest, [])) == ""
  {
  }

  // ------------------------------------------------------------ the text itself

  /** The number some digits stand for. */
  function Value(digits: string): int {
    if digits == "" then 0
    else Value(digits[..|digits| - 1]) * 10 + (digits[|digits| - 1] as int - '0' as int)
  }

  lemma DigitChar(n: nat)
    requires n < 10
    ensures DIGITS[n] as int == '0' as int + n
  {
  }

  lemma {:induction false} DecimalValue(n: nat)
    ensures Value(Decimal(n)) == n
  {
    DigitChar(n % 10);
    if n < 10 {
      assert [DIGITS[n]][..0] == "";
    } else {
      DecimalValue(n / 10);
      assert Decimal(n)[..|Decimal(n)| - 1] == Decimal(n / 10);
    }
  }

  lemma {:induction false} FractionValue(n: nat, places: nat)
    requires n < Tens(places)
    ensures Value(Fraction(n, places)) == n
  {
    if places > 0 {
      DigitChar(n % 10);
      FractionValue(n / 10, places - 1);
      assert Fraction(n, places)[..|Fraction(n, places)| - 1] == Fraction(n / 10, places - 1);
    }
  }

  /** A coordinate is written as a decimal number with five digits after the point. */
  lemma FixedWritten(n: int) returns (whole: string, fraction: string)
    ensures Fixed(n) == (if n < 0 then "-" else "") + (whole + "." + fraction)
    ensures whole != "" && |fraction| == 5 && forall c :: c in whole || c in fraction ==> '0' <= c <= '9'
    ensures Value(whole) * 100000 + Value(fraction) == if n < 0 then -n else n
  {
    hide Decimal;
    hide Fraction;
    hide Value;
    var size := if n < 0 then -n else n;
    whole, fraction := Decimal(size / 100000), Fraction(size % 100000, 5);
    DecimalValue(size / 100000);
    FiveTens();
    FractionValue(size % 100000, 5);
  }

  lemma Regrouped(mode: string, from: string, to: string, preference: string, via: string)
    ensures Fields(mode, from, to, preference + via) == mode + "|" + from + "|" + to + preference + via
    ensures Fields(mode, from, to, "") == mode + "|" + from + "|" + to
  {
  }

  lemma TailIs(mode: TravelMode, route: LegRoute)
    ensures Tail(mode, LegRoute(Fastest, [])) == Tail(mode, DEFAULT_ROUTE) == ""
    ensures Tail(mode, route)
         == (if mode.Routed() && route.preference == Shortest then "|shortest" else "")
            + (if mode.Routed() && route.via != [] then "|via:" + Join(route.via) else "")
  {
    hide Join;
  }

  /** An end is written latitude first, and as a question mark when it is not known. */
  lemma PointWritten(point: Point)
    ensures PointText(Some(point)) == Fixed(point.lat) + "," + Fixed(point.lng) && PointText(None) == "?"
  {
  }

  /** Stored inputs keep meaning what they meant: the mode, where from and where to, and for modes
      that follow roads the preference and the via points that are asked for. */
  lemma WrittenAs(mode: TravelMode, from: Option<Point>, to: Option<Point>, route: LegRoute)
    ensures PartInput(mode, from, to) == Input(mode, from, to, LegRoute(Fastest, []))
         == ModeText(mode) + "|" + PointText(from) + "|" + PointText(to)
    ensures Input(mode, from, to, route)
         == PartInput(mode, from, to) + (if mode.Routed() && route.preference == Shortest then "|shortest" else "")
            + (if mode.Routed() && route.via != [] then "|via:" + Join(route.via) else "")
  {
    hide ModeText;
    hide Join;
    hide PointText;
    hide Fields;
    hide Tail;
    var preference := if mode.Routed() && route.preference == Shortest then "|shortest" else "";
    var via := if mode.Routed() && route.via != [] then "|via:" + Join(route.via) else "";
    TailIs(mode, route);
    Regrouped(ModeText(mode), PointText(from), PointText(to), preference, via);
  }

  /** Only on foot, by bike, car, transit and bus is there a way to choose. */
  lemma OnlyRoads(mode: TravelMode, from: Option<Point>, to: Option<Point>)
    ensures Input(mode, from, to, LegRoute(Shortest, [])) != Input(mode, from, to, LegRoute(Fastest, []))
            <==> mode == Walk || mode == Bike || mode == Car || mode == Transit || mode == Bus
  {
    Unambiguous(mode, from, to, LegRoute(Shortest, []), mode, from, to, LegRoute(Fastest, []));
  }
}
