/**
 The codec of the Google encoded polyline format (backend/internal/domain/polyline.go).

 Coordinates are integers in units of the last decimal kept, so a line is a list
 of grid points and no rounding is involved. The program's machine integers have
 64 bits; every place where they can wrap around is written out.
 */
module Polyline {
  import opened Common

  datatype Point = Point(lat: int, lng: int)

  type Byte = b: int | 0 <= b < 256

  const WORD: int := 0x1_0000_0000_0000_0000
  const HALF_WORD: int := 0x8000_0000_0000_0000

  /** Two's complement wrap-around of a 64-bit integer. */
  function Wrap(x: int): (r: int)
    ensures -HALF_WORD <= r < HALF_WORD
    ensures -HALF_WORD <= x < HALF_WORD ==> r == x
  {
    (x + HALF_WORD) % WORD - HALF_WORD
  }

  /** Reads the 64 bits of a word as a signed number. */
  function Signed(word: int): int {
    if word >= HALF_WORD then word - WORD else word
  }

  function Pow2(n: nat): (p: nat)
    ensures p >= 1
  {
    if n == 0 then 1 else 2 * Pow2(n - 1)
  }

  /** Bitwise or of two words, bit by bit. */
  function BitOr(a: nat, b: nat): nat
    decreases a + b
  {
    if a == 0 then b
    else if b == 0 then a
    else Max(a % 2, b % 2) + 2 * BitOr(a / 2, b / 2)
  }

  /** A 64-bit left shift: bits pushed past the top are lost. */
  function ShiftLeft(x: nat, n: nat): (r: nat) {
    if n >= 64 then 0 else (x * Pow2(n)) % WORD
  }

  // ---------------------------------------------------------------- encoding

  /** Sign in the lowest bit: doubled, and complemented when negative. */
  function ZigZag(value: int): int {
    if value < 0 then -Wrap(value * 2) - 1 else Wrap(value * 2)
  }

  /** The characters of one number: five bits at a time, low bits first. */
  function Chunks(shifted: int): (s: seq<Byte>)
    ensures |s| >= 1
  {
    if shifted >= 0x20 then [0x20 + shifted % 0x20 + 63] + Chunks(shifted / 0x20)
    else [(shifted + 63) % 256]
  }

  function Number(value: int): seq<Byte> {
    Chunks(ZigZag(value))
  }

  function EncodeFrom(previous: Point, points: seq<Point>): seq<Byte>
    decreases |points|
  {
    if points == [] then []
    else
      Number(Wrap(points[0].lat - previous.lat)) + Number(Wrap(points[0].lng - previous.lng))
      + EncodeFrom(points[0], points[1..])
  }

  const ORIGIN: Point := Point(0, 0)

  /** The encoded line as a function of its points. */
  function Encoded(points: seq<Point>): seq<Byte> {
    EncodeFrom(ORIGIN, points)
  }

  /** The inner loop of EncodePolyline: appends one number to the buffer. */
  method EncodeValue(out: seq<Byte>, value: int) returns (grown: seq<Byte>)
    ensures grown == out + Number(value)
  {
    var shifted := ZigZag(value);
    grown := out;
    while shifted >= 0x20
      invariant grown + Chunks(shifted) == out + Number(value)
    {
      grown := grown + [0x20 + shifted % 0x20 + 63];
      shifted := shifted / 0x20;
    }
    grown := grown + [(shifted + 63) % 256];
  }

  lemma {:induction false} EncodeStep(previous: Point, points: seq<Point>, index: nat)
    requires index < |points|
    ensures EncodeFrom(previous, points[index..])
         == Number(Wrap(points[index].lat - previous.lat)) + Number(Wrap(points[index].lng - previous.lng))
            + EncodeFrom(points[index], points[index + 1..])
  {
    assert points[index..][1..] == points[index + 1..];
  }

  lemma Regroup<T>(a: seq<T>, b: seq<T>, c: seq<T>, d: seq<T>)
    ensures a + (b + c + d) == a + b + c + d
  {
  }

  lemma EncodeEnds(points: seq<Point>)
    ensures Encoded(points) == [] + EncodeFrom(Point(0, 0), points[0..])
    ensures forall previous :: EncodeFrom(previous, points[|points|..]) == []
  {
    assert points[0..] == points;
  }

  method EncodePolyline(points: seq<Point>) returns (out: seq<Byte>)
    ensures out == Encoded(points)
  {
    hide EncodeFrom;
    hide Number;
    hide Wrap;
    out := [];
    var prevLat, prevLng := 0, 0;
    var index := 0;
    EncodeEnds(points);
    while index < |points|
      invariant 0 <= index <= |points|
      invariant out + EncodeFrom(Point(prevLat, prevLng), points[index..]) == Encoded(points)
    {
      var point := points[index];
      EncodeStep(Point(prevLat, prevLng), points, index);
      Regroup(out, Number(Wrap(point.lat - prevLat)), Number(Wrap(point.lng - prevLng)),
              EncodeFrom(point, points[index + 1..]));
      out := EncodeValue(out, Wrap(point.lat - prevLat));
      out := EncodeValue(out, Wrap(point.lng - prevLng));
      prevLat, prevLng := point.lat, point.lng;
      index := index + 1;
    }
  }

  // ---------------------------------------------------------------- decoding

  /** A number read from a line, and how many characters it took. */
  datatype Reading = Reading(value: int, chars: nat)

  /** The number a complete word stands for: its sign is in the lowest bit. */
  function UnZigZag(word: int): int {
    if word % 2 == 1 then -(Signed(word) / 2) - 1 else Signed(word) / 2
  }

  /** Reads one number from the front of a line, given the bits read so far. */
  function ReadGroups(s: seq<Byte>, result: nat, shift: nat): (r: Option<Reading>)
    ensures r.Some? ==> 1 <= r.value.chars <= |s|
  {
    if s == [] then None
    else
      var b: int := s[0] as int - 63;
      var grown := BitOr(result, ShiftLeft(b % 0x20, shift));
      if b < 0x20 then Some(Reading(UnZigZag(grown), 1))
      else
        match ReadGroups(s[1..], grown, shift + 5)
        case None => None
        case Some(reading) => Some(Reading(reading.value, reading.chars + 1))
  }

  /** Reads one number from the front of a line; None when it ends mid-number. */
  function ReadNumber(s: seq<Byte>): (r: Option<Reading>)
    ensures r.Some? ==> 1 <= r.value.chars <= |s|
  {
    ReadGroups(s, 0, 0)
  }

  /** The points of the rest of a line, given the point before it. */
  function DecodeFrom(previous: Point, s: seq<Byte>): seq<Point>
    decreases |s|
  {
    match ReadNumber(s)
    case None => []
    case Some(lat) =>
      match ReadNumber(s[lat.chars..])
      case None => []
      case Some(lng) =>
        var point := Point(Wrap(previous.lat + lat.value), Wrap(previous.lng + lng.value));
        [point] + DecodeFrom(point, s[lat.chars + lng.chars..])
  }

  /** The points of a line, as far as it can be read. */
  function Decoded(s: seq<Byte>): seq<Point> {
    DecodeFrom(ORIGIN, s)
  }

  /** A reading of the rest of a line after some characters were consumed. */
  ghost function Later(reading: Option<Reading>, consumed: nat): Option<Reading> {
    match reading
    case None => None
    case Some(r) => Some(Reading(r.value, r.chars + consumed))
  }

  lemma {:induction false} ReadStep(encoded: seq<Byte>, at: nat, result: nat, shift: nat)
    requires at < |encoded|
    ensures var b: int := encoded[at] as int - 63;
            var grown := BitOr(result, ShiftLeft(b % 0x20, shift));
            ReadGroups(encoded[at..], result, shift)
            == if b < 0x20 then Some(Reading(UnZigZag(grown), 1))
               else Later(ReadGroups(encoded[at + 1..], grown, shift + 5), 1)
  {
    ReadFirst(encoded[at], encoded[at + 1..], result, shift);
    assert [encoded[at]] + encoded[at + 1..] == encoded[at..];
  }

  /** Reads one number starting at an index, never past the end of the line;
      zero characters mean the line ended mid-number. */
  method DecodeValue(encoded: seq<Byte>, index: nat) returns (value: int, read: nat)
    requires index <= |encoded|
    ensures index + read <= |encoded|
    ensures ReadNumber(encoded[index..]) == if read == 0 then None else Some(Reading(value, read))
  {
    hide BitOr;
    hide ShiftLeft;
    var result: nat, shift: nat := 0, 0;
    read := 0;
    while index + read < |encoded|
      invariant index + read <= |encoded|
      invariant ReadNumber(encoded[index..]) == Later(ReadGroups(encoded[index + read..], result, shift), read)
    {
      ReadStep(encoded, index + read, result, shift);
      var b: int := encoded[index + read] as int - 63;
      read := read + 1;
      result := BitOr(result, ShiftLeft(b % 0x20, shift));
      shift := shift + 5;
      if b < 0x20 {
        if result % 2 == 1 {
          return -(Signed(result) / 2) - 1, read;
        }
        return Signed(result) / 2, read;
      }
    }
    return 0, 0;
  }

  lemma {:induction false} DecodeStep(previous: Point, encoded: seq<Byte>, index: nat)
    requires index <= |encoded|
    ensures DecodeFrom(previous, encoded[index..])
         == match ReadNumber(encoded[index..])
            case None => []
            case Some(lat) =>
              match ReadNumber(encoded[index + lat.chars..])
              case None => []
              case Some(lng) =>
                var point := Point(Wrap(previous.lat + lat.value), Wrap(previous.lng + lng.value));
                [point] + DecodeFrom(point, encoded[index + lat.chars + lng.chars..])
  {
    hide ReadGroups;
    hide Wrap;
    if ReadNumber(encoded[index..]).Some? {
      var lat := ReadNumber(encoded[index..]).value;
      assert encoded[index..][lat.chars..] == encoded[index + lat.chars..];
      if ReadNumber(encoded[index + lat.chars..]).Some? {
        var lng := ReadNumber(encoded[index + lat.chars..]).value;
        assert encoded[index..][lat.chars + lng.chars..] == encoded[index + lat.chars + lng.chars..];
      }
    }
  }

  lemma {:induction false} DecodeEnd(previous: Point, encoded: seq<Byte>)
    ensures DecodeFrom(previous, encoded[|encoded|..]) == []
  {
  }

  method DecodePolyline(encoded: seq<Byte>) returns (points: seq<Point>)
    ensures points == Decoded(encoded)
  {
    hide Wrap;
    hide ReadNumber;
    hide DecodeFrom;
    points := [];
    var lat, lng := 0, 0;
    var index := 0;
    while index < |encoded|
      invariant 0 <= index <= |encoded|
      invariant points + DecodeFrom(Point(lat, lng), encoded[index..]) == Decoded(encoded)
    {
      DecodeStep(Point(lat, lng), encoded, index);
      var value, read := DecodeValue(encoded, index);
      if read == 0 {
        return;
      }
      lat := Wrap(lat + value);
      index := index + read;

      value, read := DecodeValue(encoded, index);
      if read == 0 {
        return;
      }
      lng := Wrap(lng + value);
      index := index + read;
      points := points + [Point(lat, lng)];
    }
    DecodeEnd(Point(lat, lng), encoded);
  }

  // -------------------------------------------------------------- round trip

  /** Points between which no difference can wrap around: far more than the
      positions on Earth, which stay below two times ten to the seventh. */
  predicate OnGrid(point: Point) {
    -0x2000_0000_0000_0000 <= point.lat < 0x2000_0000_0000_0000 &&
    -0x2000_0000_0000_0000 <= point.lng < 0x2000_0000_0000_0000
  }

  predicate AllOnGrid(points: seq<Point>) {
    forall i :: 0 <= i < |points| ==> OnGrid(points[i])
  }

  lemma {:induction false} Pow2Five(n: nat)
    ensures Pow2(n + 5) == 32 * Pow2(n)
  {
    assert Pow2(n + 5) == 2 * Pow2(n + 4) == 4 * Pow2(n + 3) == 8 * Pow2(n + 2) == 16 * Pow2(n + 1);
  }

  lemma Pow2Top()
    ensures Pow2(63) == HALF_WORD
  {
    assert Pow2(3) == 8;
    Pow2Five(3); Pow2Five(8); Pow2Five(13); Pow2Five(18); Pow2Five(23); Pow2Five(28);
    Pow2Five(33); Pow2Five(38); Pow2Five(43); Pow2Five(48); Pow2Five(53); Pow2Five(58);
  }

  lemma {:induction false} Pow2Monotone(m: nat, n: nat)
    requires m <= n
    ensures Pow2(m) <= Pow2(n)
  {
    if m < n {
      Pow2Monotone(m, n - 1);
    }
  }

  /** Or-ing bits above the ones already set is addition. */
  lemma {:induction false} BitOrIsSum(a: nat, high: nat, n: nat)
    requires a < Pow2(n)
    ensures BitOr(a, high * Pow2(n)) == a + high * Pow2(n)
  {
    if n > 0 && a > 0 && high > 0 {
      var p := Pow2(n - 1);
      assert high * Pow2(n) == 2 * (high * p);
      assert a / 2 < p;
      BitOrIsSum(a / 2, high, n - 1);
      assert (high * Pow2(n)) % 2 == 0 && high * Pow2(n) / 2 == high * p;
    } else if high == 0 {
      assert high * Pow2(n) == 0;
    }
  }

  lemma ScaleMonotone(a: nat, b: nat, p: nat)
    requires a <= b
    ensures a * p <= b * p
  {
  }

  /** The group being read does not reach past the top of the word. */
  lemma {:induction false} LowGroupFits(n: nat, shift: nat)
    requires n * Pow2(shift) < HALF_WORD
    ensures ShiftLeft(n % 0x20, shift) == (n % 0x20) * Pow2(shift)
  {
    hide Pow2;
    ScaleMonotone(n % 0x20, n, Pow2(shift));
    if shift >= 64 {
      Pow2Monotone(63, shift);
      Pow2Top();
      if n >= 1 {
        ScaleMonotone(1, n, Pow2(shift));
      }
    }
  }

  lemma SplitLow(n: nat, p: nat, result: nat)
    requires result < p
    ensures n * p == (n % 0x20) * p + (n / 0x20) * (0x20 * p)
    ensures result + (n % 0x20) * p < 0x20 * p
  {
    assert n == n % 0x20 + 0x20 * (n / 0x20);
    ScaleMonotone(n % 0x20, 0x1f, p);
  }

  lemma {:induction false} ReadFirst(c: Byte, tail: seq<Byte>, result: nat, shift: nat)
    ensures var b: int := c as int - 63;
            var grown := BitOr(result, ShiftLeft(b % 0x20, shift));
            ReadGroups([c] + tail, result, shift)
            == if b < 0x20 then Some(Reading(UnZigZag(grown), 1)) else Later(ReadGroups(tail, grown, shift + 5), 1)
  {
    hide BitOr;
    hide ShiftLeft;
    hide UnZigZag;
    assert ([c] + tail)[1..] == tail;
  }

  lemma LastGroup(shifted: nat)
    requires shifted < 0x20
    ensures Chunks(shifted) == [shifted + 63]
  {
  }

  lemma {:induction false} NextGroup(shifted: nat, rest: seq<Byte>)
    requires shifted >= 0x20 && Chunks(shifted / 0x20) == rest
    ensures Chunks(shifted) == [0x20 + shifted % 0x20 + 63] + rest
  {
  }

  /** Reading the lowest group of a number leaves the others to be read. */
  lemma ReadLowest(n: nat, rest: seq<Byte>, result: nat, shift: nat)
    requires result < Pow2(shift) && n * Pow2(shift) < HALF_WORD
    ensures var grown := result + (n % 0x20) * Pow2(shift);
            && (n < 0x20 ==> ReadGroups(Chunks(n) + rest, result, shift) == Some(Reading(UnZigZag(grown), 1)))
            && (n >= 0x20 ==>
                  ReadGroups(Chunks(n) + rest, result, shift)
                  == Later(ReadGroups(Chunks(n / 0x20) + rest, grown, shift + 5), 1))
    ensures |Chunks(n)| == if n < 0x20 then 1 else 1 + |Chunks(n / 0x20)|
  {
    hide Pow2;
    hide BitOr;
    hide ShiftLeft;
    hide UnZigZag;
    hide ReadGroups;
    hide Chunks;
    LowGroupFits(n, shift);
    BitOrIsSum(result, n % 0x20, shift);
    if n < 0x20 {
      LastGroup(n);
      ReadFirst(n + 63, rest, result, shift);
    } else {
      var later := Chunks(n / 0x20);
      NextGroup(n, later);
      ReadFirst(0x20 + n % 0x20 + 63, later + rest, result, shift);
      assert Chunks(n) + rest == [0x20 + n % 0x20 + 63] + (later + rest);
    }
  }

  /** The groups of a number are read back whatever follows them. */
  lemma {:induction false} ReadBack(n: nat, rest: seq<Byte>, result: nat, shift: nat)
    requires result < Pow2(shift)
    requires n * Pow2(shift) < HALF_WORD
    ensures ReadGroups(Chunks(n) + rest, result, shift)
         == Some(Reading(UnZigZag(result + n * Pow2(shift)), |Chunks(n)|))
  {
    hide Pow2;
    hide BitOr;
    hide ShiftLeft;
    hide UnZigZag;
    hide ReadGroups;
    ReadLowest(n, rest, result, shift);
    SplitLow(n, Pow2(shift), result);
    if n >= 0x20 {
      Pow2Five(shift);
      hide Chunks;
      ReadBack(n / 0x20, rest, result + (n % 0x20) * Pow2(shift), shift + 5);
    }
  }

  /** What one number wrote is read back exactly, whatever follows it. */
  lemma NumberRoundTrip(value: int, rest: seq<Byte>)
    requires -0x4000_0000_0000_0000 <= value < 0x4000_0000_0000_0000
    ensures ReadNumber(Number(value) + rest) == Some(Reading(value, |Number(value)|))
  {
    hide ReadGroups;
    hide Chunks;
    ReadBack(ZigZag(value), rest, 0, 0);
    assert ZigZag(value) * Pow2(0) == ZigZag(value);
  }

  /** A point is read back, and what follows it is read from there. */
  lemma {:induction false} PointReadBack(previous: Point, point: Point, tail: seq<Byte>)
    requires OnGrid(previous) && OnGrid(point)
    ensures DecodeFrom(previous, Number(point.lat - previous.lat) + Number(point.lng - previous.lng) + tail)
         == [point] + DecodeFrom(point, tail)
  {
    hide ReadNumber;
    hide Number;
    var lat, lng := Number(point.lat - previous.lat), Number(point.lng - previous.lng);
    hide DecodeFrom;
    hide Wrap;
    NumberRoundTrip(point.lat - previous.lat, lng + tail);
    NumberRoundTrip(point.lng - previous.lng, tail);
    var s := lat + (lng + tail);
    assert lat + lng + tail == s;
    assert s[|lat|..] == lng + tail;
    assert s[|lat| + |lng|..] == tail;
    assert s[0..] == s;
    DecodeStep(previous, s, 0);
    WrapsBack(previous.lat, point.lat);
    WrapsBack(previous.lng, point.lng);
  }

  lemma WrapsBack(from: int, to: int)
    requires -0x2000_0000_0000_0000 <= to < 0x2000_0000_0000_0000
    ensures Wrap(from + (to - from)) == to
  {
  }

  /** Decoding an encoded line gives its points back. */
  lemma {:induction false} RoundTripFrom(previous: Point, points: seq<Point>)
    requires OnGrid(previous) && AllOnGrid(points)
    ensures DecodeFrom(previous, EncodeFrom(previous, points)) == points
    decreases |points|
  {
    hide ReadNumber;
    hide Number;
    if points == [] {
      DecodeEnd(previous, []);
    } else {
      hide DecodeFrom;
      RoundTripFrom(points[0], points[1..]);
      PointReadBack(previous, points[0], EncodeFrom(points[0], points[1..]));
    }
  }

  lemma RoundTrip(points: seq<Point>)
    requires AllOnGrid(points)
    ensures Decoded(Encoded(points)) == points
  {
    RoundTripFrom(ORIGIN, points);
  }

  // ------------------------------------------------------------ cut-off lines

  /** A number read from a beginning of a line is the number the line holds. */
  lemma {:induction false} ReadBeginning(s: seq<Byte>, cut: nat, result: nat, shift: nat)
    requires cut <= |s|
    ensures ReadGroups(s[..cut], result, shift).Some? ==>
              ReadGroups(s, result, shift) == ReadGroups(s[..cut], result, shift)
    decreases |s|
  {
    hide BitOr;
    hide ShiftLeft;
    hide UnZigZag;
    if cut > 0 {
      var b: int := s[0] as int - 63;
      var grown := BitOr(result, ShiftLeft(b % 0x20, shift));
      ReadFirst(s[0], s[1..], result, shift);
      ReadFirst(s[0], s[1..][..cut - 1], result, shift);
      assert [s[0]] + s[1..] == s && [s[0]] + s[1..][..cut - 1] == s[..cut];
      ReadBeginning(s[1..], cut - 1, grown, shift + 5);
    }
  }

  lemma NumberBeginning(s: seq<Byte>, cut: nat)
    requires cut <= |s|
    ensures ReadNumber(s[..cut]).Some? ==>
              ReadNumber(s) == ReadNumber(s[..cut]) && 1 <= ReadNumber(s).value.chars <= cut
  {
    hide ReadGroups;
    ReadBeginning(s, cut, 0, 0);
  }

  /** Cutting any line anywhere decodes to a beginning of its points. */
  lemma {:induction false} CutFrom(previous: Point, s: seq<Byte>, cut: nat)
    requires cut <= |s|
    ensures DecodeFrom(previous, s[..cut]) <= DecodeFrom(previous, s)
    decreases |s|
  {
    hide Wrap;
    hide ReadNumber;
    hide DecodeFrom;
    var t := s[..cut];
    assert s[0..] == s && t[0..] == t;
    DecodeStep(previous, s, 0);
    DecodeStep(previous, t, 0);
    NumberBeginning(s, cut);
    if ReadNumber(t).Some? {
      var lat := ReadNumber(t).value;
      assert t[lat.chars..] == s[lat.chars..][..cut - lat.chars];
      NumberBeginning(s[lat.chars..], cut - lat.chars);
      if ReadNumber(t[lat.chars..]).Some? {
        var lng := ReadNumber(t[lat.chars..]).value;
        var used := lat.chars + lng.chars;
        assert t[used..] == s[used..][..cut - used];
        CutFrom(Point(Wrap(previous.lat + lat.value), Wrap(previous.lng + lng.value)), s[used..], cut - used);
      }
    }
  }

  /** A stored line that lost its end still draws the points before the cut. */
  lemma CutLine(points: seq<Point>, cut: nat)
    requires AllOnGrid(points)
    requires cut <= |Encoded(points)|
    ensures Decoded(Encoded(points)[..cut]) <= points
  {
    RoundTrip(points);
    CutFrom(ORIGIN, Encoded(points), cut);
  }

  /** The first two points of the example in the format's own documentation, (38.5, -120.2) and
      (40.7, -120.95), and the text it gives for them. */
  const EXAMPLE: seq<Point> := [Point(3850000, -12020000), Point(4070000, -12095000)]

  const EXAMPLE_TEXT: string := "_p~iF~ps|U_ulLnnqC"

  lemma FirstPoint()
    ensures Number(3850000) == [95, 112, 126, 105, 70]
    ensures Number(-12020000) == [126, 112, 115, 124, 85]
  {
    hide Chunks;
    LastGroup(7);
    NextGroup(234, [70]);
    NextGroup(7519, [105, 70]);
    NextGroup(240625, [126, 105, 70]);
    NextGroup(7700000, [112, 126, 105, 70]);
    LastGroup(22);
    NextGroup(733, [85]);
    NextGroup(23476, [124, 85]);
    NextGroup(751249, [115, 124, 85]);
    NextGroup(24039999, [112, 115, 124, 85]);
  }

  lemma SecondPoint()
    ensures Number(220000) == [95, 117, 108, 76]
    ensures Number(-75000) == [110, 110, 113, 67]
  {
    hide Chunks;
    LastGroup(13);
    NextGroup(429, [76]);
    NextGroup(13750, [108, 76]);
    NextGroup(440000, [117, 108, 76]);
    LastGroup(4);
    NextGroup(146, [67]);
    NextGroup(4687, [113, 67]);
    NextGroup(149999, [110, 113, 67]);
  }

  lemma LastPoint(previous: Point, point: Point)
    ensures EncodeFrom(previous, [point])
         == Number(Wrap(point.lat - previous.lat)) + Number(Wrap(point.lng - previous.lng))
  {
    hide Number;
    assert [point][1..] == [];
    assert EncodeFrom(point, []) == [];
  }

  /** Latitude before longitude, low groups first, each group 63 characters up: the line is the text
      the documentation gives, and the text is the line. */
  lemma WritesTheFormat()
    ensures |Encoded(EXAMPLE)| == |EXAMPLE_TEXT|
    ensures forall i :: 0 <= i < |EXAMPLE_TEXT| ==> Encoded(EXAMPLE)[i] == EXAMPLE_TEXT[i] as int
    ensures Decoded(Encoded(EXAMPLE)) == EXAMPLE
  {
    hide Decoded;
    hide Number;
    hide Wrap;
    FirstPoint();
    SecondPoint();
    var a, b := EXAMPLE[0], EXAMPLE[1];
    assert EXAMPLE[1..] == [b];
    LastPoint(a, b);
    assert Encoded(EXAMPLE) == Number(3850000) + Number(-12020000) + EncodeFrom(a, [b]);
    RoundTrip(EXAMPLE);
  }
}
