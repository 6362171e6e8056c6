/**
 The data parameter of a directions link (backend/internal/googlelink/googlelink.go):
 its entries, the tree they describe, and the route in that tree.
 */
module GoogleLink {
  import opened Common
  import opened Polyline

  // ------------------------------------------------------------- numbers as text

  const MAX_INT: int := 0x7FFF_FFFF_FFFF_FFFF

  predicate IsDigit(c: char) {
    '0' <= c <= '9'
  }

  predicate AllDigits(s: string) {
    forall i :: 0 <= i < |s| ==> IsDigit(s[i])
  }

  function Number(s: string): nat
    requires AllDigits(s)
  {
    if s == "" then 0 else 10 * Number(s[..|s| - 1]) + (s[|s| - 1] as int - '0' as int)
  }

  function Digit(n: nat): char
    requires n < 10
  {
    '0' + n as char
  }

  function Digits(n: nat): (s: string)
    ensures s != "" && AllDigits(s)
  {
    if n < 10 then [Digit(n)] else Digits(n / 10) + [Digit(n % 10)]
  }

  lemma {:induction false} NumberOfDigits(n: nat)
    ensures Number(Digits(n)) == n
  {
    if n < 10 {
      assert Digits(n)[..0] == "";
    } else {
      NumberOfDigits(n / 10);
      assert Digits(n)[..|Digits(n)| - 1] == Digits(n / 10);
    }
  }

  lemma {:induction false} DigitsClear(n: nat)
    ensures '!' !in Digits(n)
  {
    assert forall i :: 0 <= i < |Digits(n)| ==> IsDigit(Digits(n)[i]);
  }

  /** strconv.Atoi: a signed decimal number, None where it reports an error. */
  function Atoi(s: string): Option<int> {
    var digits := if s != "" && (s[0] == '-' || s[0] == '+') then s[1..] else s;
    if digits == "" || !AllDigits(digits) then None
    else
      var n := (if s[0] == '-' then -1 else 1) * (Number(digits) as int);
      if -MAX_INT - 1 <= n <= MAX_INT then Some(n) else None
  }

  /** What Atoi returns beside an error: the nearest number in range, or nothing. */
  function AtoiValue(s: string): (n: int)
    ensures -MAX_INT - 1 <= n <= MAX_INT
  {
    if Atoi(s).Some? then Atoi(s).value
    else
      var digits := if s != "" && (s[0] == '-' || s[0] == '+') then s[1..] else s;
      if digits == "" || !AllDigits(digits) then 0 else if s[0] == '-' then -MAX_INT - 1 else MAX_INT
  }

  lemma {:induction false} AtoiOfDigits(n: nat)
    requires n <= MAX_INT
    ensures Atoi(Digits(n)) == Some(n) && AtoiValue(Digits(n)) == n
  {
    NumberOfDigits(n);
    assert IsDigit(Digits(n)[0]);
  }

  // ------------------------------------------------------------- entries

  /** One entry of the parameter: "!<id><kind><value>". */
  datatype Token = Token(id: nat, kind: char, value: string) {
    /** How many entries are nested in a message, at any depth. */
    function Size(): (n: int)
      ensures -MAX_INT - 1 <= n <= MAX_INT
    {
      if kind == 'm' then AtoiValue(value) else 0
    }
  }

  function LeadingDigits(part: string): (n: nat)
    ensures n <= |part| && AllDigits(part[..n]) && (n < |part| ==> !IsDigit(part[n]))
  {
    if part == "" || !IsDigit(part[0]) then 0
    else
      assert forall i :: 0 < i < |part| ==> part[i] == part[1..][i - 1];
      1 + LeadingDigits(part[1..])
  }

  function ReadPart(part: string): Option<Token> {
    var n := LeadingDigits(part);
    if n == 0 || n >= |part| then None
    else
      match Atoi(part[..n])
      case None => None
      case Some(id) => if id < 0 then None else Some(Token(id, part[n], part[n + 1..]))
  }

  function ReadParts(parts: seq<string>): Option<seq<Token>> {
    if parts == [] then Some([])
    else if parts[0] == "" then ReadParts(parts[1..])
    else if ReadPart(parts[0]) == None || ReadParts(parts[1..]) == None then None
    else Some([ReadPart(parts[0]).value] + ReadParts(parts[1..]).value)
  }

  /** The entries of a parameter, None when it does not consist of entries. */
  function Entries(data: string): Option<seq<Token>> {
    ReadParts(Split(data, '!'))
  }

  function Joined(front: seq<Token>, rest: Option<seq<Token>>): Option<seq<Token>> {
    if rest.Some? then Some(front + rest.value) else None
  }

  /** Reads one entry. */
  method ReadToken(part: string) returns (token: Option<Token>)
    ensures token == ReadPart(part)
  {
    hide Atoi;
    var index := 0;
    while index < |part| && IsDigit(part[index])
      invariant index <= |part| && LeadingDigits(part) == index + LeadingDigits(part[index..])
    {
      assert part[index..][1..] == part[index + 1..];
      index := index + 1;
    }
    if index == 0 || index >= |part| {
      return None;
    }
    var id := Atoi(part[..index]);
    if id.None? {
      return None;
    }
    DigitsAreNotNegative(part[..index]);
    return Some(Token(id.value, part[index], part[index + 1..]));
  }

  lemma JoinedToken(front: seq<Token>, token: Token, rest: Option<seq<Token>>)
    ensures Joined(front, Joined([token], rest)) == Joined(front + [token], rest)
  {
    if rest.Some? {
      assert front + ([token] + rest.value) == (front + [token]) + rest.value;
    }
  }

  method Tokenize(data: string) returns (tokens: seq<Token>, ok: bool)
    ensures (if ok then Some(tokens) else None) == Entries(data)
  {
    hide ReadPart;
    hide Split;
    tokens := [];
    var parts := Split(data, '!');
    assert parts[0..] == parts;
    assert ReadParts(parts).Some? ==> [] + ReadParts(parts).value == ReadParts(parts).value;
    for k := 0 to |parts|
      invariant Entries(data) == Joined(tokens, ReadParts(parts[k..]))
    {
      assert parts[k..][1..] == parts[k + 1..];
      if parts[k] == "" {
        continue;
      }
      var token := ReadToken(parts[k]);
      if token.None? {
        return [], false;
      }
      JoinedToken(tokens, token.value, ReadParts(parts[k + 1..]));
      tokens := tokens + [token.value];
    }
    assert parts[|parts|..] == [] && tokens + [] == tokens;
    ok := true;
  }

  predicate NotEmpty(part: string) {
    part != ""
  }

  /** A part is an entry: an identifier of digits only, not too large, then a kind, then a value. */
  ghost predicate IsEntry(part: string, token: Token) {
    exists n :: 0 < n < |part| && AllDigits(part[..n]) && !IsDigit(part[n])
                && token == Token(Number(part[..n]), part[n], part[n + 1..]) && token.id <= MAX_INT
  }

  ghost predicate NoEntry(part: string) {
    forall token :: !IsEntry(part, token)
  }

  lemma {:induction false} LeadingAre(part: string, n: nat)
    requires n < |part| && AllDigits(part[..n]) && !IsDigit(part[n])
    ensures LeadingDigits(part) == n
  {
    if n > 0 {
      assert part[0] == part[..n][0] && part[1..][..n - 1] == part[..n][1..];
      LeadingAre(part[1..], n - 1);
    }
  }

  lemma ReadPartIs(part: string, token: Token)
    ensures ReadPart(part) == Some(token) <==> IsEntry(part, token)
  {
    var n := LeadingDigits(part);
    if 0 < n < |part| {
      assert IsDigit(part[..n][0]);
    }
    if IsEntry(part, token) {
      var m :| 0 < m < |part| && AllDigits(part[..m]) && !IsDigit(part[m])
               && token == Token(Number(part[..m]), part[m], part[m + 1..]) && token.id <= MAX_INT;
      LeadingAre(part, m);
    }
  }

  /** The entries are those of the parts between the marks that are not empty, in order; the text is
      refused exactly when one of these is no entry. */
  lemma {:induction false} EntriesAre(parts: seq<string>)
    ensures var kept, read := Filter(parts, NotEmpty), ReadParts(parts);
            && (read.Some? ==> |read.value| == |kept|
                               && forall i :: 0 <= i < |kept| ==> IsEntry(kept[i], read.value[i]))
            && (read == None ==> exists i :: 0 <= i < |kept| && NoEntry(kept[i]))
  {
    hide IsEntry;
    hide ReadPart;
    if parts != [] {
      EntriesAre(parts[1..]);
      var kept, rest := Filter(parts, NotEmpty), Filter(parts[1..], NotEmpty);
      if parts[0] != "" {
        forall token ensures ReadPart(parts[0]) == Some(token) <==> IsEntry(parts[0], token) {
          ReadPartIs(parts[0], token);
        }
        assert kept == [parts[0]] + rest;
        if ReadPart(parts[0]) == None {
          assert NoEntry(kept[0]);
        } else if ReadParts(parts[1..]) == None {
          var i :| 0 <= i < |rest| && NoEntry(rest[i]);
          assert kept[i + 1] == rest[i];
        }
      } else {
        assert kept == rest;
      }
    }
  }

  /** How many entries a message declares: the decimal number its value is, a text that is none
      reads as no entries, and a number out of range as the nearest in range. */
  lemma CountIs(token: Token)
    ensures token.kind != 'm' ==> token.Size() == 0
    ensures token.kind == 'm' && token.value != "" && AllDigits(token.value) ==>
              token.Size() == Min(Number(token.value), MAX_INT)
    ensures token.kind == 'm' && |token.value| > 1 && token.value[0] == '-' && AllDigits(token.value[1..]) ==>
              token.Size() == Max(0 - Number(token.value[1..]), -MAX_INT - 1)
    ensures token.kind == 'm' && |token.value| > 1 && token.value[0] == '+' && AllDigits(token.value[1..]) ==>
              token.Size() == Min(Number(token.value[1..]), MAX_INT)
    ensures token.kind == 'm' && !AllDigits(token.value)
            && (|token.value| < 2 || !(token.value[0] == '-' || token.value[0] == '+') || !AllDigits(token.value[1..]))
            ==> token.Size() == 0
    ensures token.kind == 'm' && token.value == "" ==> token.Size() == 0
  {
    assert token.value != "" && AllDigits(token.value) ==> IsDigit(token.value[0]);
    assert |token.value| == 1 && !AllDigits(token.value) ==> !IsDigit(token.value[0]);
  }

  lemma DigitsAreNotNegative(s: string)
    requires AllDigits(s) && Atoi(s).Some?
    ensures Atoi(s).value >= 0
  {
    assert IsDigit(s[0]);
  }

  function Body(token: Token): string {
    Digits(token.id) + [token.kind] + token.value
  }

  function Printed(tokens: seq<Token>): string {
    if tokens == [] then "" else "!" + Body(tokens[0]) + Printed(tokens[1..])
  }

  /** An entry that can be written down and read back. */
  predicate Printable(token: Token) {
    token.id <= MAX_INT && !IsDigit(token.kind) && token.kind != '!' && '!' !in token.value
  }

  lemma {:induction false} LeadingOf(digits: string, rest: string)
    requires AllDigits(digits) && rest != "" && !IsDigit(rest[0])
    ensures LeadingDigits(digits + rest) == |digits|
  {
    if digits == "" {
      assert digits + rest == rest;
    } else {
      assert (digits + rest)[1..] == digits[1..] + rest;
      LeadingOf(digits[1..], rest);
    }
  }

  lemma ReadBody(token: Token)
    requires Printable(token)
    ensures ReadPart(Body(token)) == Some(token)
  {
    var digits, rest := Digits(token.id), [token.kind] + token.value;
    assert Body(token) == digits + rest;
    LeadingOf(digits, rest);
    AtoiOfDigits(token.id);
    assert Body(token)[..|digits|] == digits;
    assert Body(token)[|digits| + 1..] == token.value;
  }

  /** Reading what was printed gives the entries back. */
  lemma {:induction false} EntriesOfPrinted(tokens: seq<Token>)
    requires forall token :: token in tokens ==> Printable(token)
    ensures Split(Printed(tokens), '!')[0] == "" && Entries(Printed(tokens)) == Some(tokens)
  {
    hide ReadPart;
    hide Digits;
    if tokens != [] {
      EntriesOfPrinted(tokens[1..]);
      NoMark(tokens[0]);
      ReadBody(tokens[0]);
      hide Printable;
      hide Body;
      hide Split;
      hide ReadParts;
      OneMorePrinted(Body(tokens[0]), Printed(tokens[1..]), tokens[0], tokens[1..]);
      assert [tokens[0]] + tokens[1..] == tokens;
    }
  }

  /** One more entry in front of printed ones. */
  lemma {:induction false} OneMorePrinted(body: string, rest: string, first: Token, tokens: seq<Token>)
    requires '!' !in body && body != "" && ReadPart(body) == Some(first)
    requires Split(rest, '!')[0] == "" && ReadParts(Split(rest, '!')) == Some(tokens)
    ensures Split("!" + body + rest, '!')[0] == ""
    ensures ReadParts(Split("!" + body + rest, '!')) == Some([first] + tokens)
  {
    hide ReadPart;
    hide ReadParts;
    var printed := "!" + body + rest;
    assert printed[0] == '!' && printed[1..] == body + rest;
    SplitBody(body, rest, '!');
    assert body + "" == body;
    PartsOf(Split(rest, '!'), body, first, tokens);
  }

  lemma NoMark(token: Token)
    requires Printable(token)
    ensures '!' !in Body(token) && Body(token) != ""
  {
  }

  lemma {:induction false} PartsOf(parts: seq<string>, body: string, first: Token, rest: seq<Token>)
    requires parts != [] && parts[0] == "" && ReadParts(parts) == Some(rest)
    requires body != "" && ReadPart(body) == Some(first)
    ensures ReadParts([""] + ([body] + parts[1..])) == Some([first] + rest)
  {
    assert ([""] + ([body] + parts[1..]))[1..] == [body] + parts[1..];
    assert ([body] + parts[1..])[1..] == parts[1..];
  }

  // ------------------------------------------------------------- the tree

  datatype Node = Node(token: Token, children: seq<Node>)

  /** The entries of a forest, each before those nested in it. */
  function Flat(nodes: seq<Node>): seq<Token> {
    if nodes == [] then [] else [nodes[0].token] + Flat(nodes[0].children) + Flat(nodes[1..])
  }

  /** Every message holds exactly the entries it declares, nothing else holds any. */
  predicate Declared(nodes: seq<Node>) {
    nodes == []
    || (&& (if nodes[0].token.kind == 'm' then |Flat(nodes[0].children)| == nodes[0].token.Size()
            else nodes[0].children == [])
        && Declared(nodes[0].children) && Declared(nodes[1..]))
  }

  /** The forest some entries describe. */
  function Nested(tokens: seq<Token>): Option<seq<Node>>
    decreases |tokens|
  {
    if tokens == [] then Some([])
    else
      var end := 1 + tokens[0].Size();
      if end < 1 || end > |tokens| || Nested(tokens[1..end]) == None || Nested(tokens[end..]) == None then None
      else Some([Node(tokens[0], Nested(tokens[1..end]).value)] + Nested(tokens[end..]).value)
  }

  lemma {:induction false} NestedNone(tokens: seq<Token>)
    requires tokens == []
    ensures Nested(tokens) == Some([])
  {
  }

  /** A forest that is built lists the entries it was built from, and every message holds
      as many as it declares. */
  lemma {:induction false} NestedIsDeclared(tokens: seq<Token>)
    ensures Nested(tokens).Some? ==> Flat(Nested(tokens).value) == tokens && Declared(Nested(tokens).value)
    decreases |tokens|
  {
    hide Nested;
    hide Flat;
    hide Declared;
    if tokens == [] {
      NestedNone(tokens);
      FlatNone();
    } else {
      NestedFirst(tokens);
      if Nested(tokens).Some? {
        var end := 1 + tokens[0].Size();
        NestedIsDeclared(tokens[1..end]);
        NestedIsDeclared(tokens[end..]);
        FlatStep(tokens[0], Nested(tokens[1..end]).value, Nested(tokens[end..]).value);
        assert tokens == [tokens[0]] + tokens[1..end] + tokens[end..];
      }
    }
  }

  lemma {:induction false} NestedFirst(tokens: seq<Token>)
    requires tokens != []
    ensures var end := 1 + tokens[0].Size();
            Nested(tokens).Some? ==>
              && 1 <= end <= |tokens| && Nested(tokens[1..end]).Some? && Nested(tokens[end..]).Some?
              && Nested(tokens).value == [Node(tokens[0], Nested(tokens[1..end]).value)] + Nested(tokens[end..]).value
  {
  }

  lemma FlatNone()
    ensures Flat([]) == [] && Declared([])
  {
  }

  lemma {:induction false} FlatStep(token: Token, inner: seq<Node>, rest: seq<Node>)
    requires Declared(inner) && Declared(rest) && |Flat(inner)| == token.Size()
    ensures Flat([Node(token, inner)] + rest) == [token] + Flat(inner) + Flat(rest)
    ensures Declared([Node(token, inner)] + rest)
  {
    assert ([Node(token, inner)] + rest)[1..] == rest;
    if token.kind != 'm' {
      assert inner == [];
    }
  }

  lemma {:induction false} NestedStep(token: Token, inner: seq<Token>, rest: seq<Token>)
    requires token.Size() == |inner| && Nested(inner).Some? && Nested(rest).Some?
    ensures Nested([token] + (inner + rest)) == Some([Node(token, Nested(inner).value)] + Nested(rest).value)
  {
    var tokens := [token] + (inner + rest);
    assert tokens[1..1 + |inner|] == inner && tokens[1 + |inner|..] == rest;
  }

  /** Every forest whose messages hold what they declare is built from its own list. */
  lemma {:induction false} NestedOfFlat(nodes: seq<Node>)
    requires Declared(nodes)
    ensures Nested(Flat(nodes)) == Some(nodes)
  {
    if nodes != [] {
      hide Nested;
      var inner, rest := Flat(nodes[0].children), Flat(nodes[1..]);
      assert Flat(nodes) == [nodes[0].token] + (inner + rest);
      NestedOfFlat(nodes[0].children);
      NestedOfFlat(nodes[1..]);
      NestedStep(nodes[0].token, inner, rest);
      assert nodes == [Node(nodes[0].token, nodes[0].children)] + nodes[1..];
    } else {
      NestedNone([]);
    }
  }

  /** Entries are refused exactly when no forest lists them with the counts they declare,
      and there is never more than one. */
  lemma {:induction false} NestedExactly(tokens: seq<Token>, nodes: seq<Node>)
    ensures Nested(tokens) == Some(nodes) <==> Flat(nodes) == tokens && Declared(nodes)
  {
    NestedIsDeclared(tokens);
    if Flat(nodes) == tokens && Declared(nodes) {
      NestedOfFlat(nodes);
    }
  }

  /** Printing a tree and reading it back gives the tree. */
  lemma {:induction false} TreeRoundTrip(nodes: seq<Node>)
    requires Declared(nodes)
    requires forall token :: token in Flat(nodes) ==> Printable(token)
    ensures var entries := Entries(Printed(Flat(nodes)));
            entries == Some(Flat(nodes)) && Nested(entries.value) == Some(nodes)
  {
    EntriesOfPrinted(Flat(nodes));
    NestedOfFlat(nodes);
  }

  // ------------------------------------------------------------- the loop over the entries

  /** How a call of the parser ends: with a forest, with a refusal, with an index outside the
      entries, which stops the request, or not within the rounds it was given. */
  datatype Outcome = Ended(nodes: seq<Node>) | Refused | OutOfRange | Running

  function JoinedNodes(front: seq<Node>, rest: Outcome): Outcome {
    if rest.Ended? then Ended(front + rest.nodes) else rest
  }

  /** The index after an entry and all it declares to hold, in 64-bit arithmetic. */
  function After(tokens: seq<Token>, index: nat): int
    requires index < |tokens|
  {
    if tokens[index].kind == 'm' then Wrap(index + 1 + tokens[index].Size()) else index + 1
  }

  /** The loop over the entries from an index to an end, for so many rounds. */
  function Rounds(tokens: seq<Token>, index: int, end: int, bound: nat): Outcome
    requires end <= |tokens|
    decreases bound
  {
    if index >= end then Ended([])
    else if bound == 0 then Running
    else if index < 0 then OutOfRange
    else if After(tokens, index) > end then Refused
    else
      var inner := Rounds(tokens, index + 1, After(tokens, index), bound - 1);
      if !inner.Ended? then inner
      else JoinedNodes([Node(tokens[index], inner.nodes)], Rounds(tokens, After(tokens, index), end, bound - 1))
  }

  lemma JoinedOne(front: seq<Node>, node: Node, rest: Outcome)
    ensures JoinedNodes(front, JoinedNodes([node], rest)) == JoinedNodes(front + [node], rest)
  {
    if rest.Ended? {
      assert front + ([node] + rest.nodes) == (front + [node]) + rest.nodes;
    }
  }

  lemma JoinedNone(rest: Outcome)
    ensures JoinedNodes([], rest) == rest
  {
    if rest.Ended? {
      assert [] + rest.nodes == rest.nodes;
    }
  }

  /** What one round of the loop makes of an entry. */
  lemma {:induction false} RoundAt(tokens: seq<Token>, index: nat, end: int, bound: nat)
    requires index < end <= |tokens| && bound > 0
    ensures var after := After(tokens, index);
            Rounds(tokens, index, end, bound)
            == if after > end then Refused
               else if !Rounds(tokens, index + 1, after, bound - 1).Ended? then
                 Rounds(tokens, index + 1, after, bound - 1)
               else JoinedNodes([Node(tokens[index], Rounds(tokens, index + 1, after, bound - 1).nodes)],
                                Rounds(tokens, after, end, bound - 1))
  {
    hide After;
    hide JoinedNodes;
  }

  lemma {:induction false} NoRound(tokens: seq<Token>, index: int, end: int, bound: nat)
    requires end <= |tokens|
    ensures index >= end ==> Rounds(tokens, index, end, bound) == Ended([])
    ensures index < end && bound == 0 ==> Rounds(tokens, index, end, bound) == Running
    ensures index < 0 && index < end && bound > 0 ==> Rounds(tokens, index, end, bound) == OutOfRange
  {
  }

  method Build(tokens: seq<Token>, start: int, end: int, bound: nat) returns (outcome: Outcome)
    requires end <= |tokens|
    ensures outcome == Rounds(tokens, start, end, bound)
    decreases bound
  {
    hide Rounds;
    hide AtoiValue;
    hide JoinedNodes;
    hide Wrap;
    JoinedNone(Rounds(tokens, start, end, bound));
    var nodes, index := [], start;
    var left: nat := bound;
    while index < end
      invariant left <= bound
      invariant Rounds(tokens, start, end, bound) == JoinedNodes(nodes, Rounds(tokens, index, end, left))
      decreases left
    {
      NoRound(tokens, index, end, left);
      JoinedOther(nodes);
      if left == 0 {
        return Running;
      }
      if index < 0 {
        return OutOfRange;
      }
      RoundAt(tokens, index, end, left);
      var token := tokens[index];
      var children := [];
      index := index + 1;
      if token.kind == 'm' {
        var size := AtoiValue(token.value);
        if Wrap(index + size) > end {
          return Refused;
        }
        var nested := Build(tokens, index, Wrap(index + size), left - 1);
        JoinedUnended(nodes, nested);
        if !nested.Ended? {
          return nested;
        }
        children := nested.nodes;
        index := Wrap(index + size);
      } else {
        NoRound(tokens, index, index, left - 1);
      }
      left := left - 1;
      JoinedOne(nodes, Node(token, children), Rounds(tokens, index, end, left));
      nodes := nodes + [Node(token, children)];
    }
    NoRound(tokens, index, end, left);
    JoinedEnd(nodes);
    return Ended(nodes);
  }

  lemma JoinedUnended(front: seq<Node>, rest: Outcome)
    ensures !rest.Ended? ==> JoinedNodes(front, rest) == rest
  {
  }

  lemma JoinedOther(front: seq<Node>)
    ensures JoinedNodes(front, Running) == Running && JoinedNodes(front, OutOfRange) == OutOfRange
    ensures JoinedNodes(front, Refused) == Refused
  {
  }

  lemma JoinedEnd(front: seq<Node>)
    ensures JoinedNodes(front, Ended([])) == Ended(front)
  {
    assert front + [] == front;
  }

  method NestDescendants(tokens: seq<Token>, bound: nat) returns (outcome: Outcome)
    ensures outcome == Rounds(tokens, 0, |tokens|, bound)
  {
    outcome := Build(tokens, 0, |tokens|, bound);
  }

  // ------------------------------------------------------------- the directions message

  predicate IsStop(node: Node) {
    node.token.id == 1 && node.token.kind == 'm'
  }

  function Stops(children: seq<Node>): nat {
    if children == [] then 0 else Stops(children[..|children| - 1]) + if IsStop(children[|children| - 1]) then 1 else 0
  }

  /** A message with at least two stops. */
  predicate IsDirections(node: Node) {
    node.token.kind == 'm' && node.token.id == 4 && Stops(node.children) >= 2
  }

  method CountStops(children: seq<Node>) returns (stops: nat)
    ensures stops == Stops(children)
  {
    stops := 0;
    for k := 0 to |children|
      invariant stops == Stops(children[..k])
    {
      assert children[..k + 1][..k] == children[..k];
      if children[k].token.id == 1 && children[k].token.kind == 'm' {
        stops := stops + 1;
      }
    }
    assert children[..|children|] == children;
  }

  /** Every node of a forest, each before those nested in it. */
  function Listed(nodes: seq<Node>): seq<Node> {
    if nodes == [] then [] else [nodes[0]] + Listed(nodes[0].children) + Listed(nodes[1..])
  }

  function FirstDirections(nodes: seq<Node>): Option<Node> {
    if nodes == [] then None
    else if IsDirections(nodes[0]) then Some(nodes[0])
    else FirstDirections(nodes[1..])
  }

  lemma {:induction false} FirstOfBoth(a: seq<Node>, b: seq<Node>)
    ensures FirstDirections(a + b) == if FirstDirections(a).Some? then FirstDirections(a) else FirstDirections(b)
  {
    if a == [] {
      assert a + b == b;
    } else {
      assert (a + b)[1..] == a[1..] + b;
      FirstOfBoth(a[1..], b);
    }
  }

  /** Looks into messages only, and yet finds the first directions message of the whole
      forest: of a forest that was built, nothing else holds entries. */
  method FindDirections(nodes: seq<Node>) returns (found: Option<Node>)
    requires Declared(nodes)
    ensures found == FirstDirections(Listed(nodes))
    decreases nodes
  {
    hide Stops;
    for k := 0 to |nodes|
      invariant Declared(nodes[k..])
      invariant FirstDirections(Listed(nodes)) == FirstDirections(Listed(nodes[k..]))
    {
      var node := nodes[k];
      ListedFrom(nodes, k);
      if node.token.kind != 'm' {
        continue;
      }
      if node.token.id == 4 {
        var stops := CountStops(node.children);
        if stops >= 2 {
          return Some(node);
        }
      }
      found := FindDirections(node.children);
      if found.Some? {
        return;
      }
    }
    return None;
  }

  lemma ListedFrom(nodes: seq<Node>, k: nat)
    requires k < |nodes| && Declared(nodes[k..])
    ensures Declared(nodes[k].children) && Declared(nodes[k + 1..])
    ensures nodes[k].token.kind != 'm' ==> nodes[k].children == []
    ensures FirstDirections(Listed(nodes[k..]))
         == if IsDirections(nodes[k]) then Some(nodes[k])
            else if FirstDirections(Listed(nodes[k].children)).Some? then FirstDirections(Listed(nodes[k].children))
            else FirstDirections(Listed(nodes[k + 1..]))
  {
    hide Stops;
    assert nodes[k..][1..] == nodes[k + 1..];
    var first, inner, rest := [nodes[k]], Listed(nodes[k].children), Listed(nodes[k + 1..]);
    assert Listed(nodes[k..]) == first + inner + rest;
    FirstOfBoth(first, inner);
    FirstOfBoth(first + inner, rest);
    assert first[1..] == [];
  }

  /** A message numbered 4 that holds two messages numbered 1. */
  ghost predicate ListsStops(node: Node) {
    && node.token.kind == 'm' && node.token.id == 4
    && exists i, j :: 0 <= i < j < |node.children|
         && node.children[i].token.id == 1 && node.children[i].token.kind == 'm'
         && node.children[j].token.id == 1 && node.children[j].token.kind == 'm'
  }

  lemma {:induction false} OneStop(children: seq<Node>)
    ensures Stops(children) >= 1 <==> exists i :: 0 <= i < |children| && IsStop(children[i])
  {
    if children != [] {
      OneStop(children[..|children| - 1]);
      assert children[|children| - 1] == children[|children| - 1];
      assert forall i :: 0 <= i < |children| - 1 ==> children[..|children| - 1][i] == children[i];
    }
  }

  lemma {:induction false} TwoStops(children: seq<Node>)
    ensures Stops(children) >= 2 <==>
              exists i, j :: 0 <= i < j < |children| && IsStop(children[i]) && IsStop(children[j])
  {
    if children != [] {
      var front, last := children[..|children| - 1], |children| - 1;
      TwoStops(front);
      OneStop(front);
      assert forall i :: 0 <= i < last ==> front[i] == children[i];
      if i :| 0 <= i < last && IsStop(front[i]) && IsStop(children[last]) {
        assert IsStop(children[i]);
      }
    }
  }

  /** What is found is the first message that lists stops. */
  lemma {:induction false} FoundIs(nodes: seq<Node>)
    ensures var found := FirstDirections(nodes);
            if found == None then forall k :: 0 <= k < |nodes| ==> !ListsStops(nodes[k])
            else exists k :: 0 <= k < |nodes| && nodes[k] == found.value && ListsStops(nodes[k])
                             && forall j :: 0 <= j < k ==> !ListsStops(nodes[j])
  {
    hide ListsStops;
    hide IsDirections;
    if nodes != [] {
      DirectionsAre(nodes[0]);
      FoundIs(nodes[1..]);
      assert forall k :: 0 < k < |nodes| ==> nodes[k] == nodes[1..][k - 1];
      if !IsDirections(nodes[0]) && FirstDirections(nodes[1..]).Some? {
        var k :| 0 <= k < |nodes[1..]| && nodes[1..][k] == FirstDirections(nodes[1..]).value
                 && ListsStops(nodes[1..][k]) && forall j :: 0 <= j < k ==> !ListsStops(nodes[1..][j]);
        assert nodes[k + 1] == nodes[1..][k];
        assert forall j :: 0 <= j < k + 1 ==> !ListsStops(nodes[j]);
      }
    }
  }

  lemma DirectionsAre(node: Node)
    ensures IsDirections(node) <==> ListsStops(node)
  {
    hide Stops;
    TwoStops(node.children);
  }
}
