/**
 The route in the data parameter of a directions link (parseData and childPoint in
 backend/internal/googlelink/googlelink.go): the stops with their positions, and the points
 each line was dragged through. How two decimal texts make a position is left open.
 */
module GoogleRoute {
  import opened Common
  import opened Polyline
  import opened GoogleLink
  import GoogleLoop

  datatype RoutePoint = RoutePoint(point: Point, stop: bool)

  /** Reads a longitude and a latitude, in the order the parameter writes them. */
  type ReadPair = (string, string) -> Option<Point>

  /** Reads a position typed in as "latitude,longitude". */
  type ReadTyped = string -> Option<Point>

  // ------------------------------------------------------------- reading

  /** The value of the last entry of an identifier, empty without one. */
  function ValueOf(entries: seq<Node>, id: nat): string {
    if entries == [] then ""
    else
      var last := entries[|entries| - 1].token;
      if last.id == id && last.kind == 'd' then last.value else ValueOf(entries[..|entries| - 1], id)
  }

  /** The position in a message's first child of an identifier that has both coordinates. */
  function ChildPoint(children: seq<Node>, id: nat, read: ReadPair): Option<Point> {
    if children == [] then None
    else if children[0].token.id == id && children[0].token.kind == 'm'
            && ValueOf(children[0].children, 1) != "" && ValueOf(children[0].children, 2) != ""
    then read(ValueOf(children[0].children, 1), ValueOf(children[0].children, 2))
    else ChildPoint(children[1..], id, read)
  }

  /** The points a line was dragged through. */
  function ViaPoints(children: seq<Node>, read: ReadPair): seq<RoutePoint> {
    if children == [] then []
    else
      var last := children[|children| - 1];
      var point := if last.token.id == 3 && last.token.kind == 'm' then ChildPoint(last.children, 1, read) else None;
      ViaPoints(children[..|children| - 1], read) + if point.Some? then [RoutePoint(point.value, false)] else []
  }

  function NameAt(names: seq<string>, k: nat): string {
    if k < |names| then names[k] else ""
  }

  function StopPosition(stop: Node, name: string, read: ReadPair, typed: ReadTyped): Option<Point> {
    if ChildPoint(stop.children, 2, read).Some? then ChildPoint(stop.children, 2, read) else typed(name)
  }

  /** A stop, where it is known, and the points of the line leaving it. */
  function StopPoints(stop: Node, name: string, read: ReadPair, typed: ReadTyped): seq<RoutePoint> {
    var position := StopPosition(stop, name, read, typed);
    (if position.Some? then [RoutePoint(position.value, true)] else []) + ViaPoints(stop.children, read)
  }

  function RoutePoints(children: seq<Node>, names: seq<string>, read: ReadPair, typed: ReadTyped): seq<RoutePoint> {
    if children == [] then []
    else
      var front, last := children[..|children| - 1], children[|children| - 1];
      RoutePoints(front, names, read, typed)
      + if IsStop(last) then StopPoints(last, NameAt(names, Stops(front)), read, typed) else []
  }

  /** How reading a parameter ends: with a route or without one, with an index outside the
      entries, which stops the request, or not within the rounds it was given. */
  datatype Parsing = Done(route: Option<seq<RoutePoint>>) | Panicked | Unfinished

  /** The route of a forest, None when no message in it lists stops. */
  function RouteOf(tree: seq<Node>, names: seq<string>, read: ReadPair, typed: ReadTyped): Option<seq<RoutePoint>> {
    match FirstDirections(Listed(tree))
    case None => None
    case Some(directions) => Some(RoutePoints(directions.children, names, read, typed))
  }

  function Parsed(data: string, names: seq<string>, read: ReadPair, typed: ReadTyped, bound: nat): Parsing {
    match Entries(data)
    case None => Done(None)
    case Some(tokens) =>
      if tokens == [] then Done(None)
      else
        match Rounds(tokens, 0, |tokens|, bound)
        case Ended(tree) => Done(RouteOf(tree, names, read, typed))
        case Refused => Done(None)
        case OutOfRange => Panicked
        case Running => Unfinished
  }

  /** Every parameter that is read to its end gives the route of the forest its entries
      describe, or none when they describe none; the others are those of GoogleLoop. */
  lemma ParsedIs(data: string, names: seq<string>, read: ReadPair, typed: ReadTyped, bound: nat)
    requires Entries(data).Some? ==> |Entries(data).value| <= MAX_INT && bound >= 2 * |Entries(data).value| + 1
    ensures var parsing := Parsed(data, names, read, typed, bound);
            if Entries(data) == None || Entries(data).value == [] then parsing == Done(None)
            else
              && (parsing == Panicked <==> GoogleLoop.Decision(Entries(data).value) == OutOfRange)
              && (parsing == Unfinished <==> GoogleLoop.Decision(Entries(data).value) == Running)
              && (parsing.Done? ==>
                    parsing.route
                    == match Nested(Entries(data).value)
                       case None => None
                       case Some(tree) => RouteOf(tree, names, read, typed))
  {
    hide Entries;
    hide Nested;
    hide Rounds;
    hide RouteOf;
    hide GoogleLoop.Decision;
    if Entries(data).Some? {
      var tokens := Entries(data).value;
      GoogleLoop.Decided(tokens, bound);
      if Rounds(tokens, 0, |tokens|, bound).Ended? {
        GoogleLoop.EndsWithForest(tokens, Rounds(tokens, 0, |tokens|, bound).nodes);
      } else if Nested(tokens).Some? {
        GoogleLoop.EndsWithForest(tokens, Nested(tokens).value);
      }
    }
  }

  method FindValue(entries: seq<Node>, id: nat) returns (text: string)
    ensures text == ValueOf(entries, id)
  {
    text := "";
    for k := 0 to |entries|
      invariant text == ValueOf(entries[..k], id)
    {
      assert entries[..k + 1][..k] == entries[..k];
      if entries[k].token.id == id && entries[k].token.kind == 'd' {
        text := entries[k].token.value;
      }
    }
    assert entries[..|entries|] == entries;
  }

  method FindPoint(children: seq<Node>, id: nat, read: ReadPair) returns (point: Option<Point>)
    ensures point == ChildPoint(children, id, read)
  {
    hide ValueOf;
    for k := 0 to |children|
      invariant ChildPoint(children, id, read) == ChildPoint(children[k..], id, read)
    {
      assert children[k..][1..] == children[k + 1..];
      if children[k].token.id != id || children[k].token.kind != 'm' {
        continue;
      }
      var lng := FindValue(children[k].children, 1);
      var lat := FindValue(children[k].children, 2);
      if lng != "" && lat != "" {
        return read(lng, lat);
      }
    }
    return None;
  }

  method ReadStop(stop: Node, name: string, read: ReadPair, typed: ReadTyped) returns (points: seq<RoutePoint>)
    ensures points == StopPoints(stop, name, read, typed)
  {
    hide ChildPoint;
    var position := FindPoint(stop.children, 2, read);
    if position.None? {
      position := typed(name);
    }
    points := if position.Some? then [RoutePoint(position.value, true)] else [];
    var vias := ReadVias(stop.children, read);
    points := points + vias;
  }

  method ReadVias(children: seq<Node>, read: ReadPair) returns (points: seq<RoutePoint>)
    ensures points == ViaPoints(children, read)
  {
    hide ChildPoint;
    points := [];
    for k := 0 to |children|
      invariant points == ViaPoints(children[..k], read)
    {
      assert children[..k + 1][..k] == children[..k];
      if children[k].token.id != 3 || children[k].token.kind != 'm' {
        continue;
      }
      var point := FindPoint(children[k].children, 1, read);
      if point.Some? {
        points := points + [RoutePoint(point.value, false)];
      }
    }
    assert children[..|children|] == children;
  }

  method ParseData(data: string, names: seq<string>, read: ReadPair, typed: ReadTyped, bound: nat)
    returns (parsing: Parsing)
    ensures parsing == Parsed(data, names, read, typed, bound)
  {
    hide Stops;
    hide Nested;
    hide Rounds;
    hide Listed;
    hide FirstDirections;
    hide Entries;
    hide StopPoints;
    var tokens, ok := Tokenize(data);
    if !ok || |tokens| == 0 {
      return Done(None);
    }
    var outcome := NestDescendants(tokens, bound);
    match outcome {
      case Refused => return Done(None);
      case OutOfRange => return Panicked;
      case Running => return Unfinished;
      case Ended(_) =>
    }
    var tree := outcome.nodes;
    EndedIsDeclared(tokens, bound);
    var directions := FindDirections(tree);
    if directions.None? {
      return Done(None);
    }
    var children := directions.value.children;
    var points: seq<RoutePoint>, stop := [], 0;
    NoStops();
    for k := 0 to |children|
      invariant stop == Stops(children[..k]) && points == RoutePoints(children[..k], names, read, typed)
    {
      assert children[..k + 1][..k] == children[..k];
      MoreStops(children, k);
      if children[k].token.id != 1 || children[k].token.kind != 'm' {
        continue;
      }
      var name := if stop < |names| then names[stop] else "";
      var more := ReadStop(children[k], name, read, typed);
      stop := stop + 1;
      points := points + more;
    }
    assert children[..|children|] == children;
    return Done(Some(points));
  }

  lemma {:induction false} EndedIsDeclared(tokens: seq<Token>, bound: nat)
    requires Rounds(tokens, 0, |tokens|, bound).Ended?
    ensures Declared(Rounds(tokens, 0, |tokens|, bound).nodes)
  {
    hide Rounds;
    hide GoogleLoop.Decision;
    GoogleLoop.Decided(tokens, bound);
    GoogleLoop.EndsWithForest(tokens, Rounds(tokens, 0, |tokens|, bound).nodes);
    NestedIsDeclared(tokens);
  }

  lemma NoStops()
    ensures Stops([]) == 0
  {
  }

  lemma MoreStops(children: seq<Node>, k: nat)
    requires k < |children|
    ensures Stops(children[..k + 1]) == Stops(children[..k]) + if IsStop(children[k]) then 1 else 0
  {
    assert children[..k + 1][..k] == children[..k];
  }

  // ------------------------------------------------------------- what is read

  /** The i-th entry is the last plain one of an identifier. */
  predicate ValueLast(entries: seq<Node>, id: nat, i: int) {
    && 0 <= i < |entries| && entries[i].token.id == id && entries[i].token.kind == 'd'
    && forall j :: i < j < |entries| ==> entries[j].token.id != id || entries[j].token.kind != 'd'
  }

  lemma {:induction false} ValueIs(entries: seq<Node>, id: nat)
    ensures forall i :: ValueLast(entries, id, i) ==> ValueOf(entries, id) == entries[i].token.value
    ensures (forall i :: 0 <= i < |entries| ==> entries[i].token.id != id || entries[i].token.kind != 'd') ==>
              ValueOf(entries, id) == ""
  {
    if entries != [] {
      var front := entries[..|entries| - 1];
      ValueIs(front, id);
      forall i | ValueLast(entries, id, i) ensures ValueOf(entries, id) == entries[i].token.value {
        assert i < |front| ==> ValueLast(front, id, i);
      }
    }
  }

  /** The node is a message of an identifier that holds both coordinates, longitude as entry 1 and
      latitude as entry 2. */
  predicate HoldsPoint(node: Node, id: nat) {
    && node.token.id == id && node.token.kind == 'm'
    && ValueOf(node.children, 1) != "" && ValueOf(node.children, 2) != ""
  }

  predicate PointFirst(children: seq<Node>, id: nat, i: int) {
    0 <= i < |children| && HoldsPoint(children[i], id) && forall j :: 0 <= j < i ==> !HoldsPoint(children[j], id)
  }

  lemma {:induction false} ChildPointIs(children: seq<Node>, id: nat, read: ReadPair)
    ensures forall i :: PointFirst(children, id, i) ==>
              ChildPoint(children, id, read)
              == read(ValueOf(children[i].children, 1), ValueOf(children[i].children, 2))
    ensures (forall i :: 0 <= i < |children| ==> !HoldsPoint(children[i], id)) ==>
              ChildPoint(children, id, read) == None
  {
    if children != [] {
      ChildPointIs(children[1..], id, read);
      forall i | PointFirst(children, id, i)
        ensures ChildPoint(children, id, read)
             == read(ValueOf(children[i].children, 1), ValueOf(children[i].children, 2))
      {
        assert i > 0 ==> PointFirst(children[1..], id, i - 1);
      }
    }
  }

  /** What one more child adds to a route: a stop, which is a message 1, adds its position, from its
      message 2 or else from the name it has in the path, the k-th name for the k-th stop; then
      the points in its messages 3. Any other child adds nothing. */
  lemma {:induction false} OneMoreChild(children: seq<Node>, child: Node, names: seq<string>, read: ReadPair,
                                        typed: ReadTyped)
    ensures var before := RoutePoints(children, names, read, typed);
            var after := RoutePoints(children + [child], names, read, typed);
            if child.token.id != 1 || child.token.kind != 'm' then after == before
            else
              var k := Stops(children);
              var position := if ChildPoint(child.children, 2, read).Some? then ChildPoint(child.children, 2, read)
                              else if k < |names| then typed(names[k]) else typed("");
              after == before + (if position.Some? then [RoutePoint(position.value, true)] else [])
                       + ViaPoints(child.children, read)
  {
    hide ChildPoint;
    hide ViaPoints;
    assert (children + [child])[..|children|] == children;
    var position := StopPosition(child, NameAt(names, Stops(children)), read, typed);
    var own := if position.Some? then [RoutePoint(position.value, true)] else [];
    var before, vias := RoutePoints(children, names, read, typed), ViaPoints(child.children, read);
    assert before + (own + vias) == before + own + vias;
    assert before + [] == before;
  }

  lemma {:induction false} OneMoreVia(children: seq<Node>, child: Node, read: ReadPair)
    ensures ViaPoints(children + [child], read)
         == ViaPoints(children, read)
            + if child.token.id == 3 && child.token.kind == 'm' && ChildPoint(child.children, 1, read).Some?
              then [RoutePoint(ChildPoint(child.children, 1, read).value, false)] else []
  {
    hide ChildPoint;
    assert (children + [child])[..|children|] == children;
  }

  // ------------------------------------------------------------- writing

  /** A position as it is written, longitude first. */
  datatype Text = Text(lng: string, lat: string)

  datatype StopText = StopText(position: Text, vias: seq<Text>)

  function Message(id: nat, children: seq<Node>): Node {
    Node(Token(id, 'm', Digits(|Flat(children)|)), children)
  }

  function PointNode(id: nat, text: Text): Node {
    Message(id, [Node(Token(1, 'd', text.lng), []), Node(Token(2, 'd', text.lat), [])])
  }

  function ViaNodes(vias: seq<Text>): seq<Node> {
    seq(|vias|, i requires 0 <= i < |vias| => Message(3, [PointNode(1, vias[i])]))
  }

  function StopNode(stop: StopText): Node {
    Message(1, [PointNode(2, stop.position)] + ViaNodes(stop.vias))
  }

  function StopNodes(stops: seq<StopText>): seq<Node> {
    seq(|stops|, i requires 0 <= i < |stops| => StopNode(stops[i]))
  }

  /** The tree of a route: a directions message with a message for each stop. */
  function RouteTree(stops: seq<StopText>): seq<Node> {
    [Message(4, StopNodes(stops))]
  }

  function VisitedVias(vias: seq<Text>, read: ReadPair): seq<RoutePoint>
    requires forall via :: via in vias ==> read(via.lng, via.lat).Some?
  {
    seq(|vias|, i requires 0 <= i < |vias| => RoutePoint(read(vias[i].lng, vias[i].lat).value, false))
  }

  ghost predicate Readable(stop: StopText, read: ReadPair) {
    && read(stop.position.lng, stop.position.lat).Some?
    && forall via :: via in stop.vias ==> read(via.lng, via.lat).Some?
  }

  ghost function Visited(stops: seq<StopText>, read: ReadPair): seq<RoutePoint>
    requires forall stop :: stop in stops ==> Readable(stop, read)
  {
    if stops == [] then []
    else
      var last := stops[|stops| - 1];
      assert Readable(last, read);
      Visited(stops[..|stops| - 1], read)
      + [RoutePoint(read(last.position.lng, last.position.lat).value, true)] + VisitedVias(last.vias, read)
  }

  predicate Clear(text: Text) {
    text.lng != "" && text.lat != "" && '!' !in text.lng && '!' !in text.lat
  }

  ghost predicate ClearStop(stop: StopText) {
    Clear(stop.position) && forall via :: via in stop.vias ==> Clear(via)
  }

  /** A forest that can be printed and read back. */
  ghost predicate Sound(nodes: seq<Node>) {
    Declared(nodes) && forall token :: token in Flat(nodes) ==> Printable(token)
  }

  lemma {:induction false} MessageSound(id: nat, children: seq<Node>)
    requires Sound(children) && id <= MAX_INT && |Flat(children)| <= MAX_INT
    ensures Sound([Message(id, children)]) && |Flat([Message(id, children)])| == 1 + |Flat(children)|
  {
    hide Digits;
    hide Atoi;
    hide AtoiValue;
    var node := Message(id, children);
    AtoiOfDigits(|Flat(children)|);
    DigitsClear(|Flat(children)|);
    FlatNone();
    assert [node][1..] == [];
    assert Flat([node]) == [node.token] + Flat(children);
    assert Declared([node]);
    assert Printable(node.token);
  }

  lemma {:induction false} FlatBeside(a: seq<Node>, b: seq<Node>)
    ensures Flat(a + b) == Flat(a) + Flat(b)
  {
    if a == [] {
      assert a + b == b;
    } else {
      assert (a + b)[0] == a[0] && (a + b)[1..] == a[1..] + b;
      FlatBeside(a[1..], b);
    }
  }

  lemma {:induction false} DeclaredBeside(a: seq<Node>, b: seq<Node>)
    requires Declared(a) && Declared(b)
    ensures Declared(a + b)
  {
    hide Flat;
    hide Token.Size;
    if a == [] {
      assert a + b == b;
    } else {
      assert (a + b)[0] == a[0] && (a + b)[1..] == a[1..] + b;
      DeclaredBeside(a[1..], b);
    }
  }

  lemma {:induction false} SoundBeside(a: seq<Node>, b: seq<Node>)
    requires Sound(a) && Sound(b)
    ensures Sound(a + b) && Flat(a + b) == Flat(a) + Flat(b)
  {
    hide Flat;
    hide Declared;
    hide Printable;
    FlatBeside(a, b);
    DeclaredBeside(a, b);
  }

  lemma PointSound(id: nat, text: Text)
    requires Clear(text) && id <= MAX_INT
    ensures Sound([PointNode(id, text)]) && |Flat([PointNode(id, text)])| == 3
  {
    var lng, lat := Node(Token(1, 'd', text.lng), []), Node(Token(2, 'd', text.lat), []);
    assert [lng, lat][1..] == [lat] && [lat][1..] == [];
    FlatNone();
    assert Flat([lat]) == [lat.token] && Declared([lat]);
    assert Flat([lng, lat]) == [lng.token, lat.token] && Declared([lng, lat]);
    assert Printable(lng.token) && Printable(lat.token);
    MessageSound(id, [lng, lat]);
  }

  lemma {:induction false} ViasSound(vias: seq<Text>)
    requires forall via :: via in vias ==> Clear(via)
    ensures Sound(ViaNodes(vias)) && |Flat(ViaNodes(vias))| == 4 * |vias|
  {
    if vias == [] {
      assert ViaNodes(vias) == [];
    } else {
      hide Sound;
      hide Flat;
      var front, last := vias[..|vias| - 1], vias[|vias| - 1];
      ViasSound(front);
      PointSound(1, last);
      MessageSound(3, [PointNode(1, last)]);
      SoundBeside(ViaNodes(front), [Message(3, [PointNode(1, last)])]);
      assert ViaNodes(vias) == ViaNodes(front) + [Message(3, [PointNode(1, last)])];
    }
  }

  /** How many entries the stops take. */
  function EntriesFor(stops: seq<StopText>): nat {
    if stops == [] then 0 else EntriesFor(stops[..|stops| - 1]) + 4 + 4 * |stops[|stops| - 1].vias|
  }

  lemma StopSound(stop: StopText)
    requires ClearStop(stop) && 3 + 4 * |stop.vias| <= MAX_INT
    ensures Sound([StopNode(stop)]) && |Flat([StopNode(stop)])| == 4 + 4 * |stop.vias|
  {
    hide Sound;
    hide Flat;
    PointSound(2, stop.position);
    ViasSound(stop.vias);
    SoundBeside([PointNode(2, stop.position)], ViaNodes(stop.vias));
    MessageSound(1, [PointNode(2, stop.position)] + ViaNodes(stop.vias));
  }

  lemma {:induction false} StopsSound(stops: seq<StopText>)
    requires (forall stop :: stop in stops ==> ClearStop(stop)) && EntriesFor(stops) <= MAX_INT
    ensures Sound(StopNodes(stops)) && |Flat(StopNodes(stops))| == EntriesFor(stops)
  {
    if stops == [] {
      assert StopNodes(stops) == [];
    } else {
      hide Sound;
      hide Flat;
      hide ClearStop;
      var front, last := stops[..|stops| - 1], stops[|stops| - 1];
      StopsSound(front);
      StopSound(last);
      SoundBeside(StopNodes(front), [StopNode(last)]);
      assert StopNodes(stops) == StopNodes(front) + [StopNode(last)];
    }
  }

  // ------------------------------------------------------------- the round trip

  lemma {:induction false} PointRead(id: nat, text: Text, rest: seq<Node>, read: ReadPair)
    requires Clear(text)
    ensures ChildPoint([PointNode(id, text)] + rest, id, read) == read(text.lng, text.lat)
  {
    var lng, lat := Node(Token(1, 'd', text.lng), []), Node(Token(2, 'd', text.lat), []);
    assert [lng, lat][..1] == [lng];
    assert ValueOf([lng], 1) == text.lng;
    assert ValueOf([lng, lat], 1) == text.lng && ValueOf([lng, lat], 2) == text.lat;
  }

  lemma {:induction false} OneViaRead(nodes: seq<Node>, via: Text, read: ReadPair)
    requires Clear(via) && read(via.lng, via.lat).Some?
    ensures ViaPoints(nodes + [Message(3, [PointNode(1, via)])], read)
         == ViaPoints(nodes, read) + [RoutePoint(read(via.lng, via.lat).value, false)]
  {
    hide ChildPoint;
    hide PointNode;
    PointRead(1, via, [], read);
    assert [PointNode(1, via)] + [] == [PointNode(1, via)];
    var more := nodes + [Message(3, [PointNode(1, via)])];
    assert more[..|more| - 1] == nodes;
  }

  lemma NoViaRead(first: Node, read: ReadPair)
    requires first.token.id != 3
    ensures ViaPoints([first], read) == []
  {
    assert [first][..0] == [];
  }

  lemma {:induction false} ViasRead(first: Node, vias: seq<Text>, read: ReadPair)
    requires first.token.id != 3 && forall via :: via in vias ==> Clear(via) && read(via.lng, via.lat).Some?
    ensures ViaPoints([first] + ViaNodes(vias), read) == VisitedVias(vias, read)
  {
    hide ViaPoints;
    hide Clear;
    hide PointNode;
    hide Message;
    if vias == [] {
      NoViaRead(first, read);
      assert [first] + ViaNodes(vias) == [first];
    } else {
      var front, last := vias[..|vias| - 1], vias[|vias| - 1];
      ViasRead(first, front, read);
      OneViaRead([first] + ViaNodes(front), last, read);
      assert [first] + ViaNodes(vias) == [first] + ViaNodes(front) + [Message(3, [PointNode(1, last)])];
      assert VisitedVias(vias, read) == VisitedVias(front, read) + [RoutePoint(read(last.lng, last.lat).value, false)];
    }
  }

  lemma {:induction false} StopsRead(stops: seq<StopText>, names: seq<string>, read: ReadPair, typed: ReadTyped)
    requires forall stop :: stop in stops ==> ClearStop(stop) && Readable(stop, read)
    ensures Stops(StopNodes(stops)) == |stops|
    ensures RoutePoints(StopNodes(stops), names, read, typed) == Visited(stops, read)
  {
    if stops != [] {
      hide ChildPoint;
      hide ViaPoints;
      hide StopNode;
      hide StopPoints;
      hide ClearStop;
      hide Readable;
      var front, last := stops[..|stops| - 1], stops[|stops| - 1];
      assert StopNodes(stops)[..|stops| - 1] == StopNodes(front);
      StopsRead(front, names, read, typed);
      StopRead(last, NameAt(names, Stops(StopNodes(front))), read, typed);
    }
  }

  lemma StopRead(stop: StopText, name: string, read: ReadPair, typed: ReadTyped)
    requires ClearStop(stop) && Readable(stop, read)
    ensures IsStop(StopNode(stop))
    ensures StopPoints(StopNode(stop), name, read, typed)
         == [RoutePoint(read(stop.position.lng, stop.position.lat).value, true)] + VisitedVias(stop.vias, read)
  {
    hide ChildPoint;
    hide ViaPoints;
    PointRead(2, stop.position, ViaNodes(stop.vias), read);
    ViasRead(PointNode(2, stop.position), stop.vias, read);
  }

  /** A route written as a link is read back from it: every stop with its position, and
      after it every point its line was dragged through, in order. */
  lemma {:induction false} RouteRoundTrip(stops: seq<StopText>, names: seq<string>, read: ReadPair, typed: ReadTyped,
                                          bound: nat)
    requires |stops| >= 2 && EntriesFor(stops) < MAX_INT && bound >= 2 * EntriesFor(stops) + 3
    requires forall stop :: stop in stops ==> ClearStop(stop) && Readable(stop, read)
    ensures Parsed(Printed(Flat(RouteTree(stops))), names, read, typed, bound) == Done(Some(Visited(stops, read)))
  {
    hide ClearStop;
    hide Readable;
    hide Rounds;
    hide GoogleLoop.Decision;
    var tree := RouteTree(stops);
    StopsSound(stops);
    MessageSound(4, StopNodes(stops));
    TreeRoundTrip(tree);
    GoogleLoop.EndsWithForest(Flat(tree), tree);
    GoogleLoop.Decided(Flat(tree), bound);
    StopsRead(stops, names, read, typed);
    hide Nested;
    hide Entries;
    hide Stops;
    hide StopNodes;
    assert IsDirections(tree[0]);
    assert Listed(tree)[0] == tree[0];
  }
}
