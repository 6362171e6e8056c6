/** Small definitions every module shares: optional values, sums and filters. */
module Common {

  /** Identifiers; only equality of them matters. */
  type Id = int

  /** Amounts of money, in cents. */
  type Money = int

  datatype Option<+T> = None | Some(value: T) {
    function GetOr(default: T): T {
      if Some? then value else default
    }
  }

  function Max(a: int, b: int): int {
    if a >= b then a else b
  }

  function Min(a: int, b: int): int {
    if a <= b then a else b
  }

  /** Division of whole numbers that drops the fraction, as the program's does. */
  function Quotient(a: int, b: int): int
    requires b > 0
  {
    if a >= 0 then a / b else -((-a) / b)
  }

  function Remainder(a: int, b: int): int
    requires b > 0
  {
    a - Quotient(a, b) * b
  }

  /** Adds up a sequence. */
  function Sum(s: seq<int>): int {
    if s == [] then 0 else s[0] + Sum(s[1..])
  }

  lemma {:induction false} SumAppend(a: seq<int>, b: seq<int>)
    ensures Sum(a + b) == Sum(a) + Sum(b)
  {
    if a == [] {
      assert a + b == b;
    } else {
      assert (a + b)[1..] == a[1..] + b;
      SumAppend(a[1..], b);
    }
  }

  /** Adds up what a function makes of each element. */
  function SumBy<T>(s: seq<T>, f: T -> int): int {
    if s == [] then 0 else SumBy(s[..|s| - 1], f) + f(s[|s| - 1])
  }

  lemma {:induction false} SumByAppend<T>(a: seq<T>, b: seq<T>, f: T -> int)
    ensures SumBy(a + b, f) == SumBy(a, f) + SumBy(b, f)
  {
    if b == [] {
      assert a + b == a;
    } else {
      assert (a + b)[..|a + b| - 1] == a + b[..|b| - 1];
      SumByAppend(a, b[..|b| - 1], f);
    }
  }

  function Without<T>(s: seq<T>, i: nat): seq<T>
    requires i < |s|
  {
    s[..i] + s[i + 1..]
  }

  lemma {:induction false} SumByWithout<T>(s: seq<T>, i: nat, f: T -> int)
    requires i < |s|
    ensures SumBy(s, f) == SumBy(Without(s, i), f) + f(s[i])
  {
    assert s == s[..i + 1] + s[i + 1..] && s[..i + 1][..i] == s[..i];
    SumByAppend(s[..i], s[i + 1..], f);
    SumByAppend(s[..i + 1], s[i + 1..], f);
  }

  lemma MultisetWithout<T>(s: seq<T>, i: nat)
    requires i < |s|
    ensures multiset(Without(s, i)) == multiset(s) - multiset{s[i]}
  {
    assert s == s[..i] + [s[i]] + s[i + 1..];
  }

  /** The order of the elements does not matter. */
  lemma {:induction false} SumByPermuted<T>(a: seq<T>, b: seq<T>, f: T -> int)
    requires multiset(a) == multiset(b)
    ensures SumBy(a, f) == SumBy(b, f)
    decreases |a|
  {
    hide Without;
    hide SumBy;
    if a == [] {
      assert |multiset(a)| == 0 && |multiset(b)| == |b|;
    } else {
      assert a[0] in multiset(b);
      var i :| 0 <= i < |b| && b[i] == a[0];
      MultisetWithout(a, 0);
      MultisetWithout(b, i);
      SumByWithout(a, 0, f);
      SumByWithout(b, i, f);
      assert |a| == |multiset(a)| && |Without(a, 0)| == |multiset(Without(a, 0))|;
      SumByPermuted(Without(a, 0), Without(b, i), f);
    }
  }

  /** Keeps the elements a test accepts, in order. */
  function Filter<T(!new)>(s: seq<T>, keep: T -> bool): (r: seq<T>)
    ensures |r| <= |s|
    ensures forall x :: x in r <==> x in s && keep(x)
  {
    if s == [] then []
    else (if keep(s[0]) then [s[0]] else []) + Filter(s[1..], keep)
  }

  // ------------------------------------------------------------ text in parts

  /** The parts of a text between its marks, as strings.Split cuts it. */
  function Split(s: string, mark: char): (parts: seq<string>)
    ensures parts != []
  {
    if s == "" then [""]
    else if s[0] == mark then [""] + Split(s[1..], mark)
    else [[s[0]] + Split(s[1..], mark)[0]] + Split(s[1..], mark)[1..]
  }

  function Join(parts: seq<string>, mark: char): string {
    if parts == [] then ""
    else if |parts| == 1 then parts[0]
    else parts[0] + [mark] + Join(parts[1..], mark)
  }

  lemma {:induction false} SplitBody(body: string, rest: string, mark: char)
    requires mark !in body
    ensures Split(body + rest, mark) == [body + Split(rest, mark)[0]] + Split(rest, mark)[1..]
  {
    var parts := Split(rest, mark);
    if body == "" {
      assert body + rest == rest;
      assert parts == [parts[0]] + parts[1..] && body + parts[0] == parts[0];
    } else {
      assert (body + rest)[1..] == body[1..] + rest;
      SplitBody(body[1..], rest, mark);
      assert body + parts[0] == [body[0]] + (body[1..] + parts[0]);
    }
  }

  /** Cutting a text and joining the parts gives the text back. */
  lemma {:induction false} JoinOfSplit(s: string, mark: char)
    ensures Join(Split(s, mark), mark) == s
    ensures forall part :: part in Split(s, mark) ==> mark !in part
  {
    if s != "" {
      JoinOfSplit(s[1..], mark);
      var parts := Split(s[1..], mark);
      if s[0] == mark {
        assert ([""] + parts)[1..] == parts;
        assert "" + [mark] + s[1..] == s;
      } else {
        var grown := [[s[0]] + parts[0]] + parts[1..];
        assert grown[1..] == parts[1..] && s == [s[0]] + s[1..];
      }
    }
  }

  /** Joining parts that hold no mark and cutting the text gives the parts back. */
  lemma {:induction false} SplitOfJoin(parts: seq<string>, mark: char)
    requires parts != [] && forall part :: part in parts ==> mark !in part
    ensures Split(Join(parts, mark), mark) == parts
  {
    if |parts| == 1 {
      assert parts[0] + "" == parts[0];
      SplitBody(parts[0], "", mark);
    } else {
      var rest := [mark] + Join(parts[1..], mark);
      assert Join(parts, mark) == parts[0] + rest && rest[1..] == Join(parts[1..], mark);
      SplitOfJoin(parts[1..], mark);
      SplitBody(parts[0], rest, mark);
      assert parts[0] + "" == parts[0] && parts == [parts[0]] + parts[1..];
    }
  }

  // ------------------------------------------------------------ stable sorting

  ghost predicate SortedBy<T>(s: seq<T>, key: T -> int) {
    forall i, j :: 0 <= i < j < |s| ==> key(s[i]) <= key(s[j])
  }

  /** Puts an element after every element whose key is not greater. */
  function InsertBy<T>(s: seq<T>, x: T, key: T -> int): seq<T> {
    if s == [] then [x]
    else if key(s[|s| - 1]) <= key(x) then s + [x]
    else InsertBy(s[..|s| - 1], x, key) + [s[|s| - 1]]
  }

  /** The stable sort of a sequence by a key, which is what every stable sorting
      algorithm returns; StableSortSorts and StableSortIsStable say so. */
  function StableSort<T>(s: seq<T>, key: T -> int): seq<T> {
    if s == [] then [] else InsertBy(StableSort(s[..|s| - 1], key), s[|s| - 1], key)
  }

  lemma {:induction false} InsertKeeps<T>(s: seq<T>, x: T, key: T -> int)
    ensures multiset(InsertBy(s, x, key)) == multiset(s) + multiset{x}
  {
    if s != [] && key(s[|s| - 1]) > key(x) {
      assert s == s[..|s| - 1] + [s[|s| - 1]];
      InsertKeeps(s[..|s| - 1], x, key);
    }
  }

  lemma {:induction false} InsertSorted<T>(s: seq<T>, x: T, key: T -> int)
    requires SortedBy(s, key)
    ensures SortedBy(InsertBy(s, x, key), key)
  {
    if s != [] && key(s[|s| - 1]) > key(x) {
      var front := s[..|s| - 1];
      InsertSorted(front, x, key);
      InsertKeeps(front, x, key);
      var grown := InsertBy(front, x, key);
      forall i | 0 <= i < |grown| ensures key(grown[i]) <= key(s[|s| - 1]) {
        assert grown[i] in multiset(grown);
        assert grown[i] == x || grown[i] in front;
      }
    }
  }

  /** The elements of one key, in order. */
  function Level<T>(s: seq<T>, key: T -> int, k: int): seq<T> {
    if s == [] then [] else (if key(s[0]) == k then [s[0]] else []) + Level(s[1..], key, k)
  }

  lemma {:induction false} LevelAppend<T>(a: seq<T>, b: seq<T>, key: T -> int, k: int)
    ensures Level(a + b, key, k) == Level(a, key, k) + Level(b, key, k)
  {
    if a == [] {
      assert a + b == b;
    } else {
      assert (a + b)[0] == a[0] && (a + b)[1..] == a[1..] + b;
      LevelAppend(a[1..], b, key, k);
      var first := if key(a[0]) == k then [a[0]] else [];
      assert first + (Level(a[1..], key, k) + Level(b, key, k)) == (first + Level(a[1..], key, k)) + Level(b, key, k);
    }
  }

  lemma {:induction false} InsertLevel<T>(s: seq<T>, x: T, key: T -> int, k: int)
    ensures Level(InsertBy(s, x, key), key, k) == Level(s, key, k) + (if key(x) == k then [x] else [])
  {
    if s != [] && key(s[|s| - 1]) > key(x) {
      var front, last := s[..|s| - 1], s[|s| - 1];
      assert s == front + [last];
      InsertLevel(front, x, key, k);
      LevelAppend(InsertBy(front, x, key), [last], key, k);
      LevelAppend(front, [last], key, k);
    } else {
      LevelAppend(s, [x], key, k);
    }
  }

  /** Sorted, with the same elements. */
  lemma {:induction false} StableSortSorts<T>(s: seq<T>, key: T -> int)
    ensures SortedBy(StableSort(s, key), key)
    ensures multiset(StableSort(s, key)) == multiset(s)
  {
    if s != [] {
      var front, last := s[..|s| - 1], s[|s| - 1];
      assert s == front + [last];
      StableSortSorts(front, key);
      InsertSorted(StableSort(front, key), last, key);
      InsertKeeps(StableSort(front, key), last, key);
    }
  }

  /** Elements of equal keys keep their order. */
  lemma {:induction false} StableSortIsStable<T>(s: seq<T>, key: T -> int, k: int)
    ensures Level(StableSort(s, key), key, k) == Level(s, key, k)
  {
    if s != [] {
      var front, last := s[..|s| - 1], s[|s| - 1];
      assert s == front + [last];
      StableSortIsStable(front, key, k);
      InsertLevel(StableSort(front, key), last, key, k);
      LevelAppend(front, [last], key, k);
    }
  }
}
