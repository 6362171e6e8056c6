/**
 When the loop over the entries of a directions link ends (nestDescendants in
 backend/internal/googlelink/googlelink.go). A count is whatever number the link carries:
 nothing refuses a negative one, nor one that runs past the largest integer.
 */
module GoogleLoop {
  import opened Common
  import opened Polyline
  import opened GoogleLink

  /** What the entries of a region come to: a forest, a count that runs past the end of the
      region it is in, or, whichever is met first, a message that leads back to itself or to
      an entry before it, with the end of the region it is met in. */
  datatype Reading = Clean(nodes: seq<Node>) | TooLong | Meets(message: nat, end: nat)

  function CleanBefore(node: Node, rest: Reading): Reading {
    if rest.Clean? then Clean([node] + rest.nodes) else rest
  }

  function Scan(tokens: seq<Token>, index: nat, end: nat): (r: Reading)
    requires index <= end <= |tokens|
    ensures r.Meets? ==> index <= r.message < r.end <= end && After(tokens, r.message) <= r.message
    decreases end - index
  {
    if index == end then Clean([])
    else
      var after := After(tokens, index);
      if after > end then TooLong
      else if after <= index then Meets(index, end)
      else
        var inner := Scan(tokens, index + 1, after);
        if inner.Clean? then CleanBefore(Node(tokens[index], inner.nodes), Scan(tokens, after, end)) else inner
  }

  /** Entries that are read in order end with their forest, after as many rounds as there are
      entries. */
  lemma {:induction false} CleanEnds(tokens: seq<Token>, index: nat, end: nat, bound: nat)
    requires index <= end <= |tokens| && Scan(tokens, index, end).Clean?
    ensures var outcome := Rounds(tokens, index, end, bound);
            && (outcome.Running? || outcome == Ended(Scan(tokens, index, end).nodes))
            && (bound >= end - index ==> outcome.Ended?)
    decreases end - index
  {
    hide After;
    NoRound(tokens, index, end, bound);
    if index < end && bound > 0 {
      var after := After(tokens, index);
      RoundAt(tokens, index, end, bound);
      CleanEnds(tokens, index + 1, after, bound - 1);
      CleanEnds(tokens, after, end, bound - 1);
    }
  }

  lemma {:induction false} TooLongIsRefused(tokens: seq<Token>, index: nat, end: nat, bound: nat)
    requires index <= end <= |tokens| && Scan(tokens, index, end).TooLong? && bound >= end - index
    ensures Rounds(tokens, index, end, bound) == Refused
    decreases end - index
  {
    hide After;
    RoundAt(tokens, index, end, bound);
    var after := After(tokens, index);
    if after <= end {
      if Scan(tokens, index + 1, after).Clean? {
        CleanEnds(tokens, index + 1, after, bound - 1);
        TooLongIsRefused(tokens, after, end, bound - 1);
      } else {
        TooLongIsRefused(tokens, index + 1, after, bound - 1);
      }
    }
  }

  /** How the loop goes on from where a message leads back to. */
  ghost predicate GoesOn(tokens: seq<Token>, met: Reading, rest: nat, outcome: Outcome)
    requires met.Meets? && met.message < met.end <= |tokens|
  {
    forall bound: nat :: bound >= rest ==> Rounds(tokens, After(tokens, met.message), met.end, bound) == outcome
  }

  /** The loop does what it does from where the first message that leads back leads to. */
  lemma {:induction false} UpToMessage(tokens: seq<Token>, index: nat, end: nat, rest: nat, outcome: Outcome,
                                       bound: nat)
    requires index <= end <= |tokens| && Scan(tokens, index, end).Meets? && !outcome.Ended?
    requires GoesOn(tokens, Scan(tokens, index, end), rest, outcome)
    requires bound >= Scan(tokens, index, end).message - index + 1 + rest
    ensures Rounds(tokens, index, end, bound) == outcome
    decreases end - index
  {
    hide After;
    var after := After(tokens, index);
    RoundAt(tokens, index, end, bound);
    if after <= index {
      NoRound(tokens, index + 1, after, bound - 1);
      assert Rounds(tokens, after, end, bound - 1) == outcome;
    } else if Scan(tokens, index + 1, after).Clean? {
      ScanFollows(tokens, index, end);
      CleanEnds(tokens, index + 1, after, bound - 1);
      UpToMessage(tokens, after, end, rest, outcome, bound - 1);
    } else {
      UpToMessage(tokens, index + 1, after, rest, outcome, bound - 1);
    }
  }

  lemma {:induction false} ScanAt(tokens: seq<Token>, index: nat, end: nat)
    requires index < end <= |tokens|
    ensures var after := After(tokens, index);
            Scan(tokens, index, end)
            == if after > end then TooLong
               else if after <= index then Meets(index, end)
               else if !Scan(tokens, index + 1, after).Clean? then Scan(tokens, index + 1, after)
               else CleanBefore(Node(tokens[index], Scan(tokens, index + 1, after).nodes), Scan(tokens, after, end))
  {
    hide After;
  }

  lemma {:induction false} ScanFollows(tokens: seq<Token>, index: nat, end: nat)
    requires index < end <= |tokens| && index < After(tokens, index) <= end
    requires Scan(tokens, index + 1, After(tokens, index)).Clean?
    ensures Scan(tokens, index, end)
         == CleanBefore(Node(tokens[index], Scan(tokens, index + 1, After(tokens, index)).nodes),
                        Scan(tokens, After(tokens, index), end))
  {
    hide After;
  }

  /** A message that leads back to where it is met again is met again for ever. */
  lemma {:induction false} MetForEver(tokens: seq<Token>, index: nat, end: nat, bound: nat)
    requires index <= end <= |tokens| && Scan(tokens, index, end).Meets?
    requires var met := Scan(tokens, index, end);
             After(tokens, met.message) >= 0 && Scan(tokens, After(tokens, met.message), met.end) == met
    ensures Rounds(tokens, index, end, bound) == Running
    decreases bound
  {
    hide After;
    NoRound(tokens, index, end, bound);
    if bound > 0 {
      var after := After(tokens, index);
      RoundAt(tokens, index, end, bound);
      if after <= index {
        NoRound(tokens, index + 1, after, bound - 1);
        MetForEver(tokens, after, end, bound - 1);
      } else if Scan(tokens, index + 1, after).Clean? {
        ScanFollows(tokens, index, end);
        CleanEnds(tokens, index + 1, after, bound - 1);
        MetForEver(tokens, after, end, bound - 1);
      } else {
        MetForEver(tokens, index + 1, after, bound - 1);
      }
    }
  }

  // ------------------------------------------------------------- what lies before the message

  /** The entries of a stretch lead forward, and none leads past the end of one around it. */
  ghost predicate Laminar(tokens: seq<Token>, first: nat, end: nat)
    requires end <= |tokens|
  {
    && (forall j :: first <= j < end ==> j < After(tokens, j))
    && forall j, l :: first <= j < l < end && l < After(tokens, j) ==> After(tokens, l) <= After(tokens, j)
  }

  /** No entry of a stretch leads past an index. */
  ghost predicate Within(tokens: seq<Token>, first: nat, end: nat, limit: int)
    requires end <= |tokens|
  {
    forall j :: first <= j < end ==> After(tokens, j) <= limit
  }

  /** The entries of a stretch end before a message, or hold the whole of its region. */
  ghost predicate Around(tokens: seq<Token>, first: nat, message: nat, end: int)
    requires message <= |tokens|
  {
    forall j :: first <= j < message ==> After(tokens, j) <= message || After(tokens, j) >= end
  }

  lemma {:induction false} CleanIsLaminar(tokens: seq<Token>, index: nat, end: nat)
    requires index <= end <= |tokens| && Scan(tokens, index, end).Clean?
    ensures Laminar(tokens, index, end) && Within(tokens, index, end, end)
    decreases end - index
  {
    hide After;
    if index < end {
      var after := After(tokens, index);
      CleanIsLaminar(tokens, index + 1, after);
      CleanIsLaminar(tokens, after, end);
    }
  }

  lemma {:induction false} LaminarIsClean(tokens: seq<Token>, index: nat, end: nat)
    requires index <= end <= |tokens| && Laminar(tokens, index, end) && Within(tokens, index, end, end)
    ensures Scan(tokens, index, end).Clean?
    decreases end - index
  {
    hide After;
    if index < end {
      var after := After(tokens, index);
      LaminarIsClean(tokens, index + 1, after);
      LaminarIsClean(tokens, after, end);
    }
  }

  /** Whether a region ends where it was given to end, or where an entry before the message ends. */
  ghost predicate RegionEnd(tokens: seq<Token>, index: nat, message: nat, end: nat, limit: nat)
    requires message <= |tokens|
  {
    end == limit || exists j :: index <= j < message && After(tokens, j) == end
  }

  lemma {:induction false} BeforeMessage(tokens: seq<Token>, index: nat, end: nat)
    requires index <= end <= |tokens| && Scan(tokens, index, end).Meets?
    ensures var met := Scan(tokens, index, end);
            && Laminar(tokens, index, met.message) && Within(tokens, index, met.message, end)
            && Around(tokens, index, met.message, met.end)
            && RegionEnd(tokens, index, met.message, met.end, end)
    decreases end - index
  {
    hide After;
    var after := After(tokens, index);
    if index < after {
      if Scan(tokens, index + 1, after).Clean? {
        ScanFollows(tokens, index, end);
        CleanIsLaminar(tokens, index + 1, after);
        BeforeMessage(tokens, after, end);
      } else {
        BeforeMessage(tokens, index + 1, after);
      }
    }
  }

  /** The entries before a message that leads back, in order and within the region, lead to it. */
  lemma {:induction false} LeadsToMessage(tokens: seq<Token>, index: nat, message: nat, limit: nat) returns (end: nat)
    requires index <= message < limit <= |tokens| && After(tokens, message) <= message
    requires Laminar(tokens, index, message) && Within(tokens, index, message, limit)
    ensures Scan(tokens, index, limit) == Meets(message, end)
    decreases limit - index
  {
    hide After;
    hide Scan;
    var after := After(tokens, index);
    ScanAt(tokens, index, limit);
    if index == message {
      end := limit;
    } else if after <= message {
      LaminarIsClean(tokens, index + 1, after);
      end := LeadsToMessage(tokens, after, message, limit);
    } else {
      assert Within(tokens, index + 1, message, after);
      end := LeadsToMessage(tokens, index + 1, message, after);
    }
  }

  /** Read again from any entry before it, the message is met again in the same region unless
      an entry in between runs past the end of that region. */
  lemma {:induction false} ReadAgain(tokens: seq<Token>, index: nat, message: nat, end: nat)
    requires index <= message < end <= |tokens| && After(tokens, message) <= message
    requires Laminar(tokens, index, message) && Around(tokens, index, message, end)
    ensures Scan(tokens, index, end) == if Within(tokens, index, message, end) then Meets(message, end) else TooLong
    decreases end - index
  {
    hide After;
    if Within(tokens, index, message, end) {
      var other := LeadsToMessage(tokens, index, message, end);
      BeforeMessage(tokens, index, end);
    } else {
      RunsPast(tokens, index, message, end);
    }
  }

  lemma {:induction false} RunsPast(tokens: seq<Token>, index: nat, message: nat, end: nat)
    requires index <= message < end <= |tokens|
    requires Laminar(tokens, index, message) && Around(tokens, index, message, end)
    requires !Within(tokens, index, message, end)
    ensures Scan(tokens, index, end) == TooLong
    decreases end - index
  {
    hide After;
    var after := After(tokens, index);
    if after <= message {
      LaminarIsClean(tokens, index + 1, after);
      ScanFollows(tokens, index, end);
      RunsPast(tokens, after, message, end);
    }
  }

  // ------------------------------------------------------------- how the loop ends

  /** How the loop over all entries ends, however often it goes round. */
  ghost function Decision(tokens: seq<Token>): Outcome {
    match Scan(tokens, 0, |tokens|)
    case Clean(nodes) => Ended(nodes)
    case TooLong => Refused
    case Meets(message, end) =>
      if After(tokens, message) < 0 then OutOfRange
      else if Within(tokens, After(tokens, message), message, end) then Running
      else Refused
  }

  lemma {:induction false} FirstMessage(tokens: seq<Token>)
    requires Scan(tokens, 0, |tokens|).Meets?
    ensures var met := Scan(tokens, 0, |tokens|);
            After(tokens, met.message) >= 0 ==>
              Scan(tokens, After(tokens, met.message), met.end)
              == if Within(tokens, After(tokens, met.message), met.message, met.end) then met else TooLong
  {
    hide After;
    hide Scan;
    var met := Scan(tokens, 0, |tokens|);
    BeforeMessage(tokens, 0, |tokens|);
    if After(tokens, met.message) >= 0 {
      ReadAgain(tokens, After(tokens, met.message), met.message, met.end);
    }
  }

  lemma {:induction false} EnoughRounds(tokens: seq<Token>, bound: nat)
    requires bound >= 2 * |tokens| + 1
    ensures Rounds(tokens, 0, |tokens|, bound) == Decision(tokens)
  {
    hide After;
    hide Scan;
    hide Rounds;
    var reading := Scan(tokens, 0, |tokens|);
    if reading.Clean? {
      CleanEnds(tokens, 0, |tokens|, bound);
    } else if reading.TooLong? {
      TooLongIsRefused(tokens, 0, |tokens|, bound);
    } else {
      var back := After(tokens, reading.message);
      FirstMessage(tokens);
      if back < 0 {
        forall more: nat | more >= 1 ensures Rounds(tokens, back, reading.end, more) == OutOfRange {
          NoRound(tokens, back, reading.end, more);
        }
        UpToMessage(tokens, 0, |tokens|, 1, OutOfRange, bound);
      } else if Within(tokens, back, reading.message, reading.end) {
        MetForEver(tokens, 0, |tokens|, bound);
      } else {
        forall more: nat | more >= reading.end - back ensures Rounds(tokens, back, reading.end, more) == Refused {
          TooLongIsRefused(tokens, back, reading.end, more);
        }
        UpToMessage(tokens, 0, |tokens|, reading.end - back, Refused, bound);
      }
    }
  }

  /** More rounds change nothing once the loop has ended. */
  lemma {:induction false} MoreRounds(tokens: seq<Token>, index: int, end: int, bound: nat, more: nat)
    requires end <= |tokens| && bound <= more
    ensures Rounds(tokens, index, end, bound).Running? || Rounds(tokens, index, end, bound)
              == Rounds(tokens, index, end, more)
    decreases bound
  {
    hide After;
    hide Rounds;
    NoRound(tokens, index, end, bound);
    NoRound(tokens, index, end, more);
    if index < end && bound > 0 && index >= 0 {
      var after := After(tokens, index);
      RoundAt(tokens, index, end, bound);
      RoundAt(tokens, index, end, more);
      if after <= end {
        MoreRounds(tokens, index + 1, after, bound - 1, more - 1);
        MoreRounds(tokens, after, end, bound - 1, more - 1);
      }
    }
  }

  /** Entries without a message that leads back are read to their end or refused; the first
      such message decides what becomes of the others. It stops the request when it leads to
      before the first entry, is refused when an entry read again runs past the end of the
      region it is met in, and is met for ever otherwise. */
  lemma {:induction false} Decided(tokens: seq<Token>, bound: nat)
    ensures Rounds(tokens, 0, |tokens|, bound).Running? || Rounds(tokens, 0, |tokens|, bound) == Decision(tokens)
    ensures bound >= 2 * |tokens| + 1 ==> Rounds(tokens, 0, |tokens|, bound) == Decision(tokens)
  {
    hide Rounds;
    hide Decision;
    EnoughRounds(tokens, 2 * |tokens| + 1 + bound);
    MoreRounds(tokens, 0, |tokens|, bound, 2 * |tokens| + 1 + bound);
    if bound >= 2 * |tokens| + 1 {
      EnoughRounds(tokens, bound);
    }
  }

  /** Which message decides: the first that leads back, with entries before it that all lead
      forward, none past the end of one around it, in the innermost region that holds it. */
  lemma {:induction false} DecidingMessage(tokens: seq<Token>, message: nat, end: nat)
    ensures Scan(tokens, 0, |tokens|) == Meets(message, end)
       <==> && message < end <= |tokens| && After(tokens, message) <= message
            && Laminar(tokens, 0, message) && Within(tokens, 0, message, |tokens|)
            && Around(tokens, 0, message, end) && RegionEnd(tokens, 0, message, end, |tokens|)
  {
    hide After;
    hide Scan;
    if Scan(tokens, 0, |tokens|) == Meets(message, end) {
      BeforeMessage(tokens, 0, |tokens|);
    } else if && message < end <= |tokens| && After(tokens, message) <= message
              && Laminar(tokens, 0, message) && Within(tokens, 0, message, |tokens|)
              && Around(tokens, 0, message, end) && RegionEnd(tokens, 0, message, end, |tokens|) {
      var other := LeadsToMessage(tokens, 0, message, |tokens|);
      BeforeMessage(tokens, 0, |tokens|);
      assert false;
    }
  }

  lemma {:induction false} CleanIsNested(tokens: seq<Token>, index: nat, end: nat)
    requires index <= end <= |tokens| && Scan(tokens, index, end).Clean?
    ensures Nested(tokens[index..end]) == Some(Scan(tokens, index, end).nodes)
    decreases end - index
  {
    hide Nested;
    hide AtoiValue;
    if index < end {
      var after := After(tokens, index);
      CleanIsNested(tokens, index + 1, after);
      CleanIsNested(tokens, after, end);
      NestedParts(tokens, index, after, end);
    } else {
      NestedNone(tokens[index..end]);
    }
  }

  lemma SliceOfSlice<T>(s: seq<T>, from: nat, to: nat, first: nat, end: nat)
    requires from <= to <= |s| && first <= end <= to - from
    ensures s[from..to][first..end] == s[from + first..from + end]
  {
    var whole := s[from..to];
    forall k | first <= k < end ensures whole[k] == s[from + k] {
    }
    assert |whole[first..end]| == |s[from + first..from + end]|;
  }

  lemma {:induction false} NestedParts(tokens: seq<Token>, index: nat, after: nat, end: nat)
    requires index < after <= end <= |tokens| && after == index + 1 + tokens[index].Size()
    ensures var inner, rest := Nested(tokens[index + 1..after]), Nested(tokens[after..end]);
            Nested(tokens[index..end])
            == if inner.Some? && rest.Some? then Some([Node(tokens[index], inner.value)] + rest.value) else None
  {
    hide AtoiValue;
    hide Token.Size;
    var part := tokens[index..end];
    assert part[0] == tokens[index];
    SliceOfSlice(tokens, index, end, 1, after - index);
    SliceOfSlice(tokens, index, end, after - index, end - index);
    assert part[after - index..end - index] == part[after - index..];
  }

  lemma {:induction false} NestedIsClean(tokens: seq<Token>, index: nat, end: nat)
    requires index <= end <= |tokens| <= MAX_INT && Nested(tokens[index..end]).Some?
    ensures Scan(tokens, index, end).Clean?
    decreases end - index
  {
    hide Nested;
    hide AtoiValue;
    if index < end {
      var after := index + 1 + tokens[index].Size();
      NestedFirst(tokens[index..end]);
      NestedParts(tokens, index, after, end);
      NestedIsClean(tokens, index + 1, after);
      NestedIsClean(tokens, after, end);
    }
  }

  /** The loop ends with a forest exactly when the entries describe one, and it is that. */
  lemma {:induction false} EndsWithForest(tokens: seq<Token>, nodes: seq<Node>)
    ensures Decision(tokens) == Ended(nodes) ==> Nested(tokens) == Some(nodes)
    ensures |tokens| <= MAX_INT && Nested(tokens) == Some(nodes) ==> Decision(tokens) == Ended(nodes)
  {
    hide Nested;
    hide Scan;
    assert tokens[0..|tokens|] == tokens;
    if Scan(tokens, 0, |tokens|).Clean? {
      CleanIsNested(tokens, 0, |tokens|);
    } else if |tokens| <= MAX_INT && Nested(tokens) == Some(nodes) {
      NestedIsClean(tokens, 0, |tokens|);
    }
  }

  // ------------------------------------------------------------- parameters that are not refused

  /** What becomes of a parameter of one message, whatever its count. */
  lemma OneMessage(value: string)
    requires '!' !in value
    ensures var message := Token(1, 'm', value);
            && Entries("!1m" + value) == Some([message])
            && Decision([message])
               == (if message.Size() == 0 then Ended([Node(message, [])])
                   else if message.Size() == -1 then Running
                   else if message.Size() < 0 || message.Size() == MAX_INT then OutOfRange
                   else Refused)
  {
    var message := Token(1, 'm', value);
    assert Digits(1) == "1";
    assert Printed([message]) == "!" + Body(message) + Printed([]);
    assert Printed([message]) == "!1m" + value;
    EntriesOfPrinted([message]);
    hide AtoiValue;
    hide Token.Size;
    hide Scan;
    ScanAt([message], 0, 1);
    if After([message], 0) == 1 {
      assert Scan([message], 1, 1) == Clean([]) by {
        LaminarIsClean([message], 1, 1);
        CleanIsNested([message], 1, 1);
        NestedNone([]);
      }
    }
  }

  lemma {:induction false} Minus(n: nat)
    requires 0 < n <= MAX_INT
    ensures AtoiValue("-" + Digits(n)) == 0 - n
  {
    hide Digits;
    NumberOfDigits(n);
    assert ("-" + Digits(n))[1..] == Digits(n);
  }

  /** The smallest parameters that are read for ever and that stop the request. */
  lemma Endless()
    ensures Entries("!1m-1") == Some([Token(1, 'm', "-1")]) && Decision([Token(1, 'm', "-1")]) == Running
    ensures Entries("!1m-2") == Some([Token(1, 'm', "-2")]) && Decision([Token(1, 'm', "-2")]) == OutOfRange
  {
    Minus(1);
    Minus(2);
    assert Digits(1) == "1" && Digits(2) == "2";
    assert "-" + "1" == "-1" && "-" + "2" == "-2";
    hide AtoiValue;
    hide Digits;
    hide Decision;
    hide Entries;
    assert "!1m" + "-1" == "!1m-1" && "!1m" + "-2" == "!1m-2";
    OneMessage("-1");
    OneMessage("-2");
  }

  /** The largest count there is runs past the end and is not refused. */
  lemma {:induction false} LargestCount(largest: nat)
    requires largest == MAX_INT
    ensures var message := Token(1, 'm', Digits(largest));
            Entries("!1m" + Digits(largest)) == Some([message]) && Decision([message]) == OutOfRange
  {
    hide AtoiValue;
    hide Digits;
    hide Decision;
    hide Entries;
    AtoiOfDigits(largest);
    DigitsClear(largest);
    OneMessage(Digits(largest));
  }

  /** A message that leads back is refused where what it leads to runs past its region. */
  lemma {:induction false} LedBackToRefusal(tokens: seq<Token>)
    requires tokens == [Token(1, 'm', "3"), Token(2, 'm', "1"), Token(3, 'm', "-3"), Token(4, 's', "x")]
    ensures Scan(tokens, 0, 4) == Meets(2, 3) && After(tokens, 2) == 0 && Decision(tokens) == Refused
  {
    assert Digits(1) == "1" && Digits(3) == "3";
    AtoiOfDigits(1);
    AtoiOfDigits(3);
    Minus(3);
    assert "-" + "3" == "-3";
    hide AtoiValue;
    hide Digits;
    assert After(tokens, 0) == 4 && After(tokens, 1) == 3 && After(tokens, 2) == 0;
    hide After;
    hide Scan;
    ScanAt(tokens, 2, 3);
    ScanAt(tokens, 1, 4);
    ScanAt(tokens, 0, 4);
    assert !Within(tokens, 0, 2, 3);
  }
}
