/**
 What a reader from outside a trip is shown (backend/internal/domain/privacy.go).

 The circles are given by their centres and radii; the distance on the globe is
 any function to the reals, since only comparisons of it matter.
 */
module Privacy {
  import opened Common
  import opened Polyline
  import opened Document

  datatype Zone = Zone(center: Point, radiusM: int)

  datatype PrivacyZones = PrivacyZones(zones: seq<Zone>, greatCircle: (Point, Point) -> real) {

    predicate Contains(point: Point) {
      exists i :: 0 <= i < |zones| && greatCircle(zones[i].center, point) <= zones[i].radiusM as real
    }

    /** A position that is not set lies nowhere. */
    predicate Hides(lat: Option<int>, lng: Option<int>) {
      lat.Some? && lng.Some? && Contains(Point(lat.value, lng.value))
    }

    /** The points outside every circle, in order. */
    function Shown(points: seq<Point>): (kept: seq<Point>)
      ensures |kept| <= |points|
      ensures forall i :: 0 <= i < |kept| ==> !Contains(kept[i]) && kept[i] in points
    {
      if points == [] then []
      else (if Contains(points[0]) then [] else [points[0]]) + Shown(points[1..])
    }

    method Points(points: seq<Point>) returns (kept: seq<Point>)
      ensures kept == Shown(points)
    {
      hide Shown;
      hide Contains;
      kept := [];
      ShownNone();
      assert points[0..] == points;
      for index := 0 to |points|
        invariant kept + Shown(points[index..]) == Shown(points)
      {
        ShownFrom(points, index);
        if !Contains(points[index]) {
          kept := kept + [points[index]];
        }
      }
    }

    lemma {:induction false} ShownNone()
      ensures Shown([]) == []
    {
    }

    lemma {:induction false} ShownFrom(points: seq<Point>, index: nat)
      requires index < |points|
      ensures Shown(points[index..])
           == (if Contains(points[index]) then [] else [points[index]]) + Shown(points[index + 1..])
    {
      assert points[index..][1..] == points[index + 1..];
    }

    /** The line without its hidden points. */
    function Trimmed(encoded: seq<Byte>): seq<Byte> {
      var points := Decoded(encoded);
      var kept := Shown(points);
      if |kept| == |points| then encoded
      else if |kept| < 2 then []
      else Encoded(kept)
    }

    method Line(encoded: seq<Byte>) returns (line: seq<Byte>)
      ensures line == Trimmed(encoded)
    {
      if |zones| == 0 || encoded == [] {
        NothingHidden(Decoded(encoded));
        return encoded;
      }
      var points := DecodePolyline(encoded);
      var kept := Points(points);
      if |kept| == |points| {
        return encoded;
      }
      if |kept| < 2 {
        return [];
      }
      line := EncodePolyline(kept);
    }

    lemma {:induction false} NothingHidden(points: seq<Point>)
      requires forall i :: 0 <= i < |points| ==> !Contains(points[i])
      ensures Shown(points) == points
    {
      if points != [] {
        NothingHidden(points[1..]);
      }
    }

    lemma {:induction false} ShownAll(points: seq<Point>)
      requires |Shown(points)| == |points|
      ensures Shown(points) == points
    {
      if points != [] {
        ShownAll(points[1..]);
      }
    }

    // ------------------------------------------------------------- the document

    function NearestFrom(line: seq<Point>, to: Point, nearest: Point): (p: Point)
      ensures p == nearest || p in line
      ensures greatCircle(p, to) <= greatCircle(nearest, to)
      ensures forall q :: q in line ==> greatCircle(p, to) <= greatCircle(q, to)
    {
      if line == [] then nearest
      else NearestFrom(line[1..], to, if greatCircle(line[0], to) < greatCircle(nearest, to) then line[0] else nearest)
    }

    /** Where a hidden stop is drawn: the first of the nearest points shown. */
    function Nearest(line: seq<Point>, to: Point): (p: Point)
      requires line != []
      ensures p in line
      ensures forall q :: q in line ==> greatCircle(p, to) <= greatCircle(q, to)
    {
      NearestFrom(line[1..], to, line[0])
    }

    function ShownStops(stops: seq<Stop>, line: seq<Point>): seq<Stop> {
      if stops == [] then []
      else
        (if !Contains(stops[0].point) then [stops[0]]
         else if line == [] then []
         else [stops[0].(point := Nearest(line, stops[0].point))])
        + ShownStops(stops[1..], line)
    }

    method Stops(stops: seq<Stop>, line: seq<Point>) returns (kept: seq<Stop>)
      ensures kept == ShownStops(stops, line)
    {
      hide ShownStops;
      hide Nearest;
      hide Contains;
      kept := [];
      ShownStopsFrom(stops, line, |stops|);
      assert stops[0..] == stops;
      for index := 0 to |stops|
        invariant kept + ShownStops(stops[index..], line) == ShownStops(stops, line)
      {
        ShownStopsFrom(stops, line, index);
        var stop := stops[index];
        if Contains(stop.point) {
          if |line| == 0 {
            continue;
          }
          var nearest := FindNearest(line, stop.point);
          stop := stop.(point := nearest);
        }
        kept := kept + [stop];
      }
    }

    lemma {:induction false} ShownStopsFrom(stops: seq<Stop>, line: seq<Point>, index: nat)
      requires index <= |stops|
      ensures index == |stops| ==> ShownStops(stops[index..], line) == []
      ensures index < |stops| ==>
                ShownStops(stops[index..], line)
                == (if !Contains(stops[index].point) then [stops[index]]
                    else if line == [] then []
                    else [stops[index].(point := Nearest(line, stops[index].point))])
                   + ShownStops(stops[index + 1..], line)
    {
      if index < |stops| {
        assert stops[index..][1..] == stops[index + 1..];
      }
    }

    method FindNearest(line: seq<Point>, to: Point) returns (nearest: Point)
      requires line != []
      ensures nearest == Nearest(line, to)
    {
      nearest := line[0];
      for at := 1 to |line|
        invariant NearestFrom(line[at..], to, nearest) == Nearest(line, to)
      {
        assert line[at..][1..] == line[at + 1..];
        if greatCircle(line[at], to) < greatCircle(nearest, to) {
          nearest := line[at];
        }
      }
    }

    function OutsideItem(item: Item): Item {
      if Hides(item.lat, item.lng) then item.(lat := None, lng := None, address := "", osmRef := "") else item
    }

    function OutsideStay(stay: Stay): Stay {
      if Hides(stay.lat, stay.lng) then stay.(lat := None, lng := None, address := "") else stay
    }

    function OutsideTransfer(transfer: Transfer): Transfer {
      var from := if Hides(transfer.fromLat, transfer.fromLng)
                  then transfer.(fromLat := None, fromLng := None, fromAddress := "") else transfer;
      if Hides(from.toLat, from.toLng) then from.(toLat := None, toLng := None, toAddress := "") else from
    }

    function OutsideSegment(segment: Segment): Segment {
      var trimmed := segment.(geometry := Trimmed(segment.geometry));
      if Hides(trimmed.stopLat, trimmed.stopLng) then trimmed.(stopLat := None, stopLng := None) else trimmed
    }

    function OutsideSegments(segments: seq<Segment>): (r: seq<Segment>)
      ensures |r| == |segments|
      ensures forall i :: 0 <= i < |r| ==> r[i] == OutsideSegment(segments[i])
    {
      seq(|segments|, i requires 0 <= i < |segments| => OutsideSegment(segments[i]))
    }

    function OutsideLeg(leg: Leg): Leg {
      leg.(geometry := Trimmed(leg.geometry), via := Shown(leg.via), segments := OutsideSegments(leg.segments))
    }

    function OutsideTrack(track: Track): Track {
      var geometry := Trimmed(track.geometry);
      track.(geometry := geometry, stops := ShownStops(track.stops, Decoded(geometry)))
    }

    /** The content as a reader from outside the trip sees it. */
    function Outside(c: Content): (shown: Content)
      ensures |shown.items| == |c.items| && |shown.stays| == |c.stays| && |shown.transfers| == |c.transfers|
      ensures |shown.legs| == |c.legs| && |shown.tracks| == |c.tracks|
    {
      c.(items := seq(|c.items|, i requires 0 <= i < |c.items| => OutsideItem(c.items[i])),
         stays := seq(|c.stays|, i requires 0 <= i < |c.stays| => OutsideStay(c.stays[i])),
         transfers := seq(|c.transfers|, i requires 0 <= i < |c.transfers| => OutsideTransfer(c.transfers[i])),
         legs := seq(|c.legs|, i requires 0 <= i < |c.legs| => OutsideLeg(c.legs[i])),
         tracks := seq(|c.tracks|, i requires 0 <= i < |c.tracks| => OutsideTrack(c.tracks[i])))
    }

    method HideSegments(segments: seq<Segment>) returns (hidden: seq<Segment>)
      ensures hidden == OutsideSegments(segments)
    {
      hidden := segments;
      for position := 0 to |segments|
        invariant |hidden| == |segments|
        invariant forall i :: 0 <= i < position ==> hidden[i] == OutsideSegment(segments[i])
        invariant forall i :: position <= i < |segments| ==> hidden[i] == segments[i]
      {
        var line := Line(hidden[position].geometry);
        var segment := hidden[position].(geometry := line);
        if Hides(segment.stopLat, segment.stopLng) {
          segment := segment.(stopLat := None, stopLng := None);
        }
        hidden := hidden[position := segment];
      }
    }

    method HidePlaces(c: Content) returns (items: seq<Item>, stays: seq<Stay>, transfers: seq<Transfer>)
      ensures items == Outside(c).items && stays == Outside(c).stays && transfers == Outside(c).transfers
    {
      items, stays, transfers := c.items, c.stays, c.transfers;
      for index := 0 to |items|
        invariant |items| == |c.items|
        invariant forall i :: 0 <= i < index ==> items[i] == OutsideItem(c.items[i])
        invariant forall i :: index <= i < |items| ==> items[i] == c.items[i]
      {
        if Hides(items[index].lat, items[index].lng) {
          items := items[index := items[index].(lat := None, lng := None, address := "", osmRef := "")];
        }
      }
      for index := 0 to |stays|
        invariant |stays| == |c.stays|
        invariant forall i :: 0 <= i < index ==> stays[i] == OutsideStay(c.stays[i])
        invariant forall i :: index <= i < |stays| ==> stays[i] == c.stays[i]
      {
        if Hides(stays[index].lat, stays[index].lng) {
          stays := stays[index := stays[index].(lat := None, lng := None, address := "")];
        }
      }
      for index := 0 to |transfers|
        invariant |transfers| == |c.transfers|
        invariant forall i :: 0 <= i < index ==> transfers[i] == OutsideTransfer(c.transfers[i])
        invariant forall i :: index <= i < |transfers| ==> transfers[i] == c.transfers[i]
      {
        var transfer := transfers[index];
        if Hides(transfer.fromLat, transfer.fromLng) {
          transfer := transfer.(fromLat := None, fromLng := None, fromAddress := "");
        }
        if Hides(transfer.toLat, transfer.toLng) {
          transfer := transfer.(toLat := None, toLng := None, toAddress := "");
        }
        transfers := transfers[index := transfer];
      }
    }

    method HideContent(c: Content) returns (shown: Content)
      ensures shown == Outside(c)
    {
      if |zones| == 0 {
        NoZones(c);
        return c;
      }
      var items, stays, transfers := HidePlaces(c);
      var legs, tracks := c.legs, c.tracks;
      for index := 0 to |legs|
        invariant |legs| == |c.legs|
        invariant forall i :: 0 <= i < index ==> legs[i] == OutsideLeg(c.legs[i])
        invariant forall i :: index <= i < |legs| ==> legs[i] == c.legs[i]
      {
        var line := Line(legs[index].geometry);
        var via := Points(legs[index].via);
        var segments := HideSegments(legs[index].segments);
        legs := legs[index := legs[index].(geometry := line, via := via, segments := segments)];
      }
      for index := 0 to |tracks|
        invariant |tracks| == |c.tracks|
        invariant forall i :: 0 <= i < index ==> tracks[i] == OutsideTrack(c.tracks[i])
        invariant forall i :: index <= i < |tracks| ==> tracks[i] == c.tracks[i]
      {
        var line := Line(tracks[index].geometry);
        var points := DecodePolyline(line);
        var stops := Stops(tracks[index].stops, points);
        tracks := tracks[index := tracks[index].(geometry := line, stops := stops)];
      }
      shown := c.(items := items, stays := stays, transfers := transfers, legs := legs, tracks := tracks);
    }

    // ------------------------------------------------------------ what is hidden

    predicate LineOutside(encoded: seq<Byte>) {
      forall p :: p in Decoded(encoded) ==> !Contains(p)
    }

    /** The point of a position that is set lies outside every circle. */
    predicate SpotOutside(spot: Option<Point>) {
      spot.Some? ==> !Contains(spot.value)
    }

    predicate LegOutside(leg: Leg) {
      && LineOutside(leg.geometry)
      && (forall p :: p in leg.via ==> !Contains(p))
      && (forall i :: 0 <= i < |leg.segments| ==>
            (LineOutside(leg.segments[i].geometry) && SpotOutside(leg.segments[i].Change())))
    }

    predicate TrackOutside(track: Track) {
      && LineOutside(track.geometry)
      && (forall i :: 0 <= i < |track.stops| ==> !Contains(track.stops[i].point))
    }

    /** No position of the content lies inside a circle. */
    predicate NothingInside(c: Content) {
      && (forall i :: 0 <= i < |c.items| ==> SpotOutside(Position(c.items[i].lat, c.items[i].lng)))
      && (forall i :: 0 <= i < |c.stays| ==> SpotOutside(Position(c.stays[i].lat, c.stays[i].lng)))
      && (forall i :: 0 <= i < |c.transfers| ==>
            (SpotOutside(Position(c.transfers[i].fromLat, c.transfers[i].fromLng))
             && SpotOutside(Position(c.transfers[i].toLat, c.transfers[i].toLng))))
      && (forall i :: 0 <= i < |c.legs| ==> LegOutside(c.legs[i]))
      && (forall i :: 0 <= i < |c.tracks| ==> TrackOutside(c.tracks[i]))
    }

    lemma NoZones(c: Content)
      requires |zones| == 0
      ensures Outside(c) == c
    {
      hide Outside;
      hide Decoded;
      Unchanged(c);
    }

    // ------------------------------------------------------------- lines

    /** Trimming commutes with the codec: what a trimmed line decodes to is what
        its shown points are, unless they are too few to draw. */
    lemma {:induction false} TrimmedLine(encoded: seq<Byte>)
      requires AllOnGrid(Shown(Decoded(encoded)))
      ensures var points, kept := Decoded(encoded), Shown(Decoded(encoded));
              && (kept == points ==> Trimmed(encoded) == encoded)
              && (kept != points && |kept| >= 2 ==> Decoded(Trimmed(encoded)) == kept)
              && (kept != points && |kept| < 2 ==> Trimmed(encoded) == [])
      ensures LineOutside(Trimmed(encoded))
    {
      hide Encoded;
      hide Decoded;
      var points, kept := Decoded(encoded), Shown(Decoded(encoded));
      if |kept| == |points| {
        ShownAll(points);
      } else if |kept| >= 2 {
        RoundTrip(kept);
      } else {
        DecodedNothing();
      }
    }

    lemma DecodedNothing()
      ensures Decoded([]) == []
    {
      DecodeEnd(ORIGIN, []);
    }

    lemma LineUnchanged(encoded: seq<Byte>)
      requires LineOutside(encoded)
      ensures Trimmed(encoded) == encoded
    {
      NothingHidden(Decoded(encoded));
    }

    lemma {:induction false} StopsUnchanged(stops: seq<Stop>, line: seq<Point>)
      requires forall i :: 0 <= i < |stops| ==> !Contains(stops[i].point)
      ensures ShownStops(stops, line) == stops
    {
      if stops != [] {
        StopsUnchanged(stops[1..], line);
      }
    }

    /** Content with nothing inside the circles is shown as it is. */
    lemma Unchanged(c: Content)
      requires NothingInside(c)
      ensures Outside(c) == c
    {
      hide Trimmed;
      hide LineOutside;
      forall i | 0 <= i < |c.legs| ensures OutsideLeg(c.legs[i]) == c.legs[i] {
        var leg := c.legs[i];
        LineUnchanged(leg.geometry);
        NothingHidden(leg.via);
        forall j | 0 <= j < |leg.segments| ensures OutsideSegment(leg.segments[j]) == leg.segments[j] {
          LineUnchanged(leg.segments[j].geometry);
        }
        assert OutsideSegments(leg.segments) == leg.segments;
      }
      forall i | 0 <= i < |c.tracks| ensures OutsideTrack(c.tracks[i]) == c.tracks[i] {
        LineUnchanged(c.tracks[i].geometry);
        StopsUnchanged(c.tracks[i].stops, Decoded(c.tracks[i].geometry));
      }
      assert Outside(c).items == c.items;
      assert Outside(c).stays == c.stays;
      assert Outside(c).transfers == c.transfers;
      assert Outside(c).legs == c.legs;
      assert Outside(c).tracks == c.tracks;
    }

    lemma {:induction false} StopsMoved(stops: seq<Stop>, line: seq<Point>)
      requires forall p :: p in line ==> !Contains(p)
      ensures forall i :: 0 <= i < |ShownStops(stops, line)| ==> !Contains(ShownStops(stops, line)[i].point)
    {
      if stops != [] {
        StopsMoved(stops[1..], line);
      }
    }

    predicate LineOnGrid(encoded: seq<Byte>) {
      AllOnGrid(Shown(Decoded(encoded)))
    }

    /** The lines of the content draw points of the grid where they are shown. */
    predicate LinesOnGrid(c: Content) {
      && (forall i :: 0 <= i < |c.legs| ==> LineOnGrid(c.legs[i].geometry))
      && (forall i, j :: 0 <= i < |c.legs| && 0 <= j < |c.legs[i].segments| ==>
            LineOnGrid(c.legs[i].segments[j].geometry))
      && (forall i :: 0 <= i < |c.tracks| ==> LineOnGrid(c.tracks[i].geometry))
    }

    lemma LegHidden(leg: Leg)
      requires LineOnGrid(leg.geometry) && forall j :: 0 <= j < |leg.segments| ==> LineOnGrid(leg.segments[j].geometry)
      ensures LegOutside(OutsideLeg(leg))
    {
      hide Trimmed;
      hide LineOutside;
      TrimmedLine(leg.geometry);
      forall j | 0 <= j < |leg.segments|
        ensures LineOutside(OutsideLeg(leg).segments[j].geometry)
             && SpotOutside(OutsideLeg(leg).segments[j].Change())
      {
        TrimmedLine(leg.segments[j].geometry);
      }
    }

    lemma TrackHidden(track: Track)
      requires LineOnGrid(track.geometry)
      ensures TrackOutside(OutsideTrack(track))
    {
      hide Trimmed;
      hide LineOutside;
      var geometry := Trimmed(track.geometry);
      TrimmedLine(track.geometry);
      ShownLine(geometry);
      StopsMoved(track.stops, Decoded(geometry));
    }

    /** Whatever the content held, nothing shown of it lies inside a circle. */
    lemma Hidden(c: Content)
      requires LinesOnGrid(c)
      ensures NothingInside(Outside(c))
    {
      hide OutsideLeg;
      hide OutsideTrack;
      hide LegOutside;
      hide TrackOutside;
      hide LineOnGrid;
      hide Contains;
      forall i | 0 <= i < |c.legs| ensures LegOutside(OutsideLeg(c.legs[i])) {
        LegHidden(c.legs[i]);
      }
      forall i | 0 <= i < |c.tracks| ensures TrackOutside(OutsideTrack(c.tracks[i])) {
        TrackHidden(c.tracks[i]);
      }
    }

    lemma ShownLine(encoded: seq<Byte>)
      requires LineOutside(encoded)
      ensures forall p :: p in Decoded(encoded) ==> !Contains(p)
    {
    }

    /** Hiding twice hides nothing more; content is left as it was exactly when
        nothing of it lies inside a circle. */
    lemma Idempotent(c: Content)
      requires LinesOnGrid(c)
      ensures Outside(Outside(c)) == Outside(c)
      ensures Outside(c) == c <==> NothingInside(c)
    {
      Hidden(c);
      Unchanged(Outside(c));
      if NothingInside(c) {
        Unchanged(c);
      }
    }

    // ------------------------------------------------------------ what does not show

    /** Two positions are the same one, or are both hidden. */
    predicate SameSpot(lat: Option<int>, lng: Option<int>, lat': Option<int>, lng': Option<int>) {
      (lat == lat' && lng == lng') || (Hides(lat, lng) && Hides(lat', lng'))
    }

    predicate ItemsAlike(a: Item, b: Item) {
      && a == b.(lat := a.lat, lng := a.lng, address := a.address, osmRef := a.osmRef)
      && SameSpot(a.lat, a.lng, b.lat, b.lng)
      && (!Hides(a.lat, a.lng) ==> a.address == b.address && a.osmRef == b.osmRef)
    }

    predicate StaysAlike(a: Stay, b: Stay) {
      && a == b.(lat := a.lat, lng := a.lng, address := a.address)
      && SameSpot(a.lat, a.lng, b.lat, b.lng) && (!Hides(a.lat, a.lng) ==> a.address == b.address)
    }

    predicate TransfersAlike(a: Transfer, b: Transfer) {
      && a == b.(fromLat := a.fromLat, fromLng := a.fromLng, fromAddress := a.fromAddress,
                 toLat := a.toLat, toLng := a.toLng, toAddress := a.toAddress)
      && SameSpot(a.fromLat, a.fromLng, b.fromLat, b.fromLng)
      && (!Hides(a.fromLat, a.fromLng) ==> a.fromAddress == b.fromAddress)
      && SameSpot(a.toLat, a.toLng, b.toLat, b.toLng)
      && (!Hides(a.toLat, a.toLng) ==> a.toAddress == b.toAddress)
    }

    /** Two lines are the same, or both run through a circle and agree outside. */
    predicate LinesAlike(a: seq<Byte>, b: seq<Byte>) {
      a == b || (!LineOutside(a) && !LineOutside(b) && Shown(Decoded(a)) == Shown(Decoded(b)))
    }

    predicate PartsAlike(a: Segment, b: Segment) {
      && a == b.(geometry := a.geometry, stopLat := a.stopLat, stopLng := a.stopLng)
      && LinesAlike(a.geometry, b.geometry) && SameSpot(a.stopLat, a.stopLng, b.stopLat, b.stopLng)
    }

    predicate LegsAlike(a: Leg, b: Leg) {
      && a == b.(geometry := a.geometry, via := a.via, segments := a.segments)
      && LinesAlike(a.geometry, b.geometry) && Shown(a.via) == Shown(b.via)
      && |a.segments| == |b.segments|
      && forall j :: 0 <= j < |a.segments| ==> PartsAlike(a.segments[j], b.segments[j])
    }

    predicate TracksAlike(a: Track, b: Track) {
      a == b.(geometry := a.geometry) && LinesAlike(a.geometry, b.geometry)
    }

    /** Two documents that differ in nothing but what lies inside the circles. */
    predicate Alike(a: Content, b: Content) {
      && a.days == b.days && a.expenses == b.expenses
      && |a.items| == |b.items| && (forall i :: 0 <= i < |a.items| ==> ItemsAlike(a.items[i], b.items[i]))
      && |a.stays| == |b.stays| && (forall i :: 0 <= i < |a.stays| ==> StaysAlike(a.stays[i], b.stays[i]))
      && |a.transfers| == |b.transfers|
      && (forall i :: 0 <= i < |a.transfers| ==> TransfersAlike(a.transfers[i], b.transfers[i]))
      && |a.legs| == |b.legs| && (forall i :: 0 <= i < |a.legs| ==> LegsAlike(a.legs[i], b.legs[i]))
      && |a.tracks| == |b.tracks| && (forall i :: 0 <= i < |a.tracks| ==> TracksAlike(a.tracks[i], b.tracks[i]))
    }

    lemma {:induction false} SomeHidden(points: seq<Point>)
      ensures |Shown(points)| == |points| <==> forall p :: p in points ==> !Contains(p)
    {
      if |Shown(points)| == |points| {
        ShownAll(points);
      }
      if forall p :: p in points ==> !Contains(p) {
        NothingHidden(points);
      }
    }

    lemma LineTells(a: seq<Byte>, b: seq<Byte>)
      requires LinesAlike(a, b)
      ensures Trimmed(a) == Trimmed(b)
    {
      hide Decoded;
      hide Encoded;
      SomeHidden(Decoded(a));
      SomeHidden(Decoded(b));
    }

    lemma LegTells(a: Leg, b: Leg)
      requires LegsAlike(a, b)
      ensures OutsideLeg(a) == OutsideLeg(b)
    {
      hide Trimmed;
      hide LinesAlike;
      LineTells(a.geometry, b.geometry);
      forall j | 0 <= j < |a.segments| ensures OutsideSegment(a.segments[j]) == OutsideSegment(b.segments[j]) {
        LineTells(a.segments[j].geometry, b.segments[j].geometry);
      }
      assert OutsideSegments(a.segments) == OutsideSegments(b.segments);
    }

    /** What is shown depends on nothing inside a circle: not on where a hidden element, stay,
        end of a transfer or change is, what its address is or how the map refers to it, and
        not on the hidden points of any line. */
    lemma TellsNothing(a: Content, b: Content)
      requires Alike(a, b)
      ensures Outside(a) == Outside(b)
    {
      hide Trimmed;
      hide LinesAlike;
      hide OutsideLeg;
      hide LegsAlike;
      hide Contains;
      forall i | 0 <= i < |a.legs| ensures OutsideLeg(a.legs[i]) == OutsideLeg(b.legs[i]) {
        LegTells(a.legs[i], b.legs[i]);
      }
      forall i | 0 <= i < |a.tracks| ensures OutsideTrack(a.tracks[i]) == OutsideTrack(b.tracks[i]) {
        LineTells(a.tracks[i].geometry, b.tracks[i].geometry);
      }
      assert Outside(a).items == Outside(b).items;
      assert Outside(a).stays == Outside(b).stays;
      assert Outside(a).transfers == Outside(b).transfers;
      assert Outside(a).legs == Outside(b).legs;
      assert Outside(a).tracks == Outside(b).tracks;
    }

    // ------------------------------------------------------------ what still shows

    /** An element outside shows as it is; one inside keeps all but where it is. */
    predicate ItemShows(item: Item, shown: Item) {
      && shown.(lat := item.lat, lng := item.lng, address := item.address, osmRef := item.osmRef) == item
      && if Hides(item.lat, item.lng)
         then shown.lat == None && shown.lng == None && shown.address == "" && shown.osmRef == ""
         else shown == item
    }

    predicate StayShows(stay: Stay, shown: Stay) {
      && shown.(lat := stay.lat, lng := stay.lng, address := stay.address) == stay
      && if Hides(stay.lat, stay.lng) then shown.lat == None && shown.lng == None && shown.address == ""
         else shown == stay
    }

    /** Each end of a transfer is hidden or shown for itself. */
    predicate TransferShows(transfer: Transfer, shown: Transfer) {
      && shown.(fromLat := transfer.fromLat, fromLng := transfer.fromLng, fromAddress := transfer.fromAddress,
                toLat := transfer.toLat, toLng := transfer.toLng, toAddress := transfer.toAddress) == transfer
      && (if Hides(transfer.fromLat, transfer.fromLng)
          then shown.fromLat == None && shown.fromLng == None && shown.fromAddress == ""
          else shown.fromLat == transfer.fromLat && shown.fromLng == transfer.fromLng
               && shown.fromAddress == transfer.fromAddress)
      && (if Hides(transfer.toLat, transfer.toLng)
          then shown.toLat == None && shown.toLng == None && shown.toAddress == ""
          else shown.toLat == transfer.toLat && shown.toLng == transfer.toLng && shown.toAddress == transfer.toAddress)
    }

    predicate PartShows(part: Segment, shown: Segment) {
      && shown.(geometry := part.geometry, stopLat := part.stopLat, stopLng := part.stopLng) == part
      && (LineOutside(part.geometry) ==> shown.geometry == part.geometry)
      && if Hides(part.stopLat, part.stopLng) then shown.stopLat == None && shown.stopLng == None
         else shown.stopLat == part.stopLat && shown.stopLng == part.stopLng
    }

    predicate LegShows(leg: Leg, shown: Leg) {
      && shown.(geometry := leg.geometry, via := leg.via, segments := leg.segments) == leg
      && (LineOutside(leg.geometry) ==> shown.geometry == leg.geometry)
      && shown.via == Filter(leg.via, (p: Point) => !Contains(p))
      && |shown.segments| == |leg.segments|
      && forall j :: 0 <= j < |leg.segments| ==> PartShows(leg.segments[j], shown.segments[j])
    }

    predicate TrackShows(track: Track, shown: Track) {
      && shown.(geometry := track.geometry, stops := track.stops) == track
      && (LineOutside(track.geometry) ==> shown.geometry == track.geometry)
      && (forall stop :: stop in track.stops && !Contains(stop.point) ==> stop in shown.stops)
    }

    lemma {:induction false} ShownIsFiltered(points: seq<Point>)
      ensures Shown(points) == Filter(points, (p: Point) => !Contains(p))
    {
      if points != [] {
        ShownIsFiltered(points[1..]);
      }
    }

    lemma {:induction false} StopsStay(stops: seq<Stop>, line: seq<Point>)
      ensures forall stop :: stop in stops && !Contains(stop.point) ==> stop in ShownStops(stops, line)
    {
      if stops != [] {
        StopsStay(stops[1..], line);
      }
    }

    /** Nothing outside the circles is lost: names, times, distances and costs always show, and
        so do the position, the address and the map reference of whatever is not hidden. */
    lemma StillShows(c: Content)
      ensures var shown := Outside(c);
              && shown.days == c.days && shown.expenses == c.expenses
              && |shown.items| == |c.items|
              && (forall i :: 0 <= i < |c.items| ==> ItemShows(c.items[i], shown.items[i]))
              && |shown.stays| == |c.stays|
              && (forall i :: 0 <= i < |c.stays| ==> StayShows(c.stays[i], shown.stays[i]))
              && |shown.transfers| == |c.transfers|
              && (forall i :: 0 <= i < |c.transfers| ==> TransferShows(c.transfers[i], shown.transfers[i]))
              && |shown.legs| == |c.legs| && (forall i :: 0 <= i < |c.legs| ==> LegShows(c.legs[i], shown.legs[i]))
              && |shown.tracks| == |c.tracks|
              && (forall i :: 0 <= i < |c.tracks| ==> TrackShows(c.tracks[i], shown.tracks[i]))
    {
      hide Trimmed;
      hide LineOutside;
      hide Contains;
      var shown := Outside(c);
      forall i | 0 <= i < |c.legs| ensures LegShows(c.legs[i], shown.legs[i]) {
        LegStillShows(c.legs[i]);
      }
      forall i | 0 <= i < |c.tracks| ensures TrackShows(c.tracks[i], shown.tracks[i]) {
        if LineOutside(c.tracks[i].geometry) {
          LineUnchanged(c.tracks[i].geometry);
        }
        StopsStay(c.tracks[i].stops, Decoded(shown.tracks[i].geometry));
      }
    }

    lemma LegStillShows(leg: Leg)
      ensures LegShows(leg, OutsideLeg(leg))
    {
      hide Trimmed;
      hide LineOutside;
      if LineOutside(leg.geometry) {
        LineUnchanged(leg.geometry);
      }
      ShownIsFiltered(leg.via);
      forall j | 0 <= j < |leg.segments| ensures PartShows(leg.segments[j], OutsideSegment(leg.segments[j])) {
        if LineOutside(leg.segments[j].geometry) {
          LineUnchanged(leg.segments[j].geometry);
        }
      }
    }

    /** No point of the line is nearer than the k-th, and none before it is as near. */
    predicate NearestFirst(line: seq<Point>, to: Point, k: nat)
      requires k < |line|
    {
      && (forall j :: 0 <= j < |line| ==> greatCircle(line[k], to) <= greatCircle(line[j], to))
      && forall j :: 0 <= j < k ==> greatCircle(line[k], to) < greatCircle(line[j], to)
    }

    lemma {:induction false} NearestIsFirst(line: seq<Point>, to: Point, from: nat, at: nat)
      requires at < from <= |line|
      requires forall j :: 0 <= j < from ==> greatCircle(line[at], to) <= greatCircle(line[j], to)
      requires forall j :: 0 <= j < at ==> greatCircle(line[at], to) < greatCircle(line[j], to)
      ensures exists k ::
                0 <= k < |line| && NearestFirst(line, to, k) && NearestFrom(line[from..], to, line[at]) == line[k]
      decreases |line| - from
    {
      if from < |line| {
        assert line[from..][1..] == line[from + 1..];
        var nearer := greatCircle(line[from], to) < greatCircle(line[at], to);
        NearestIsFirst(line, to, from + 1, if nearer then from else at);
      } else {
        assert NearestFirst(line, to, at);
      }
    }

    /** A hidden stop of a track is kept exactly when some of its line is shown, and
        then at the nearest shown point, the first of several; every other stop stays where it is. */
    lemma {:induction false} StopsAt(stops: seq<Stop>, line: seq<Point>)
      ensures line != [] ==> |ShownStops(stops, line)| == |stops|
      ensures line != [] ==> forall i :: 0 <= i < |stops| ==>
                var shown := ShownStops(stops, line)[i];
                && shown == stops[i].(point := shown.point)
                && if Contains(stops[i].point)
                   then shown.point in line
                        && exists k ::
                             0 <= k < |line| && NearestFirst(line, stops[i].point, k) && shown.point == line[k]
                   else shown == stops[i]
      ensures line == [] ==> ShownStops(stops, line) == Filter(stops, (s: Stop) => !Contains(s.point))
    {
      if stops != [] {
        StopsAt(stops[1..], line);
        if line != [] {
          NearestIsFirst(line, stops[0].point, 1, 0);
        }
      }
    }
  }

  // ------------------------------------------------------------- two sets of circles

  /** The circles of both. */
  function Both(a: PrivacyZones, b: PrivacyZones): PrivacyZones {
    PrivacyZones(a.zones + b.zones, a.greatCircle)
  }

  lemma BothContain(a: PrivacyZones, b: PrivacyZones, point: Point)
    requires a.greatCircle == b.greatCircle
    ensures Both(a, b).Contains(point) <==> a.Contains(point) || b.Contains(point)
  {
    var zones := a.zones + b.zones;
    if a.Contains(point) {
      var i :| 0 <= i < |a.zones| && a.greatCircle(a.zones[i].center, point) <= a.zones[i].radiusM as real;
      assert zones[i] == a.zones[i];
    }
    if b.Contains(point) {
      var i :| 0 <= i < |b.zones| && b.greatCircle(b.zones[i].center, point) <= b.zones[i].radiusM as real;
      assert zones[|a.zones| + i] == b.zones[i];
    }
  }

  lemma {:induction false} BothShown(a: PrivacyZones, b: PrivacyZones, points: seq<Point>)
    requires a.greatCircle == b.greatCircle
    ensures Both(a, b).Shown(points) == b.Shown(a.Shown(points))
  {
    hide PrivacyZones.Contains;
    hide Both;
    if points != [] {
      BothContain(a, b, points[0]);
      BothShown(a, b, points[1..]);
      if !a.Contains(points[0]) {
        assert a.Shown(points)[1..] == a.Shown(points[1..]);
      } else {
        assert a.Shown(points) == a.Shown(points[1..]);
      }
    }
  }

  /** Trimming by one set of circles and then by another is trimming by both. */
  lemma {:induction false} TrimmedByBoth(a: PrivacyZones, b: PrivacyZones, encoded: seq<Byte>)
    requires a.greatCircle == b.greatCircle
    requires AllOnGrid(a.Shown(Decoded(encoded)))
    ensures b.Trimmed(a.Trimmed(encoded)) == Both(a, b).Trimmed(encoded)
  {
    hide Decoded;
    hide Encoded;
    hide Both;
    var points := Decoded(encoded);
    BothShown(a, b, points);
    a.TrimmedLine(encoded);
    if |a.Shown(points)| == |points| {
      a.ShownAll(points);
    } else if |a.Shown(points)| < 2 {
      a.DecodedNothing();
    } else if |b.Shown(a.Shown(points))| == |a.Shown(points)| {
      b.ShownAll(a.Shown(points));
    }
  }
}
