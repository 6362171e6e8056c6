/**
 Which names an archive entry may carry (safeArchivePath and the comparison with the
 cleaned name in backend/internal/backup/restore.go): exactly those that stay below the
 directory the archive is unpacked into, written the one plain way.
 */
module Paths {
  import opened Common

  predicate Plain(part: string) {
    part != "" && part != "." && part != ".."
  }

  /** Resolves the parts of a path from left to right, as path.Clean does. */
  function Resolve(done: seq<string>, parts: seq<string>, rooted: bool): seq<string>
    decreases |parts|
  {
    if parts == [] then done
    else if parts[0] == "" || parts[0] == "." then Resolve(done, parts[1..], rooted)
    else if parts[0] != ".." then Resolve(done + [parts[0]], parts[1..], rooted)
    else if done != [] && done[|done| - 1] != ".." then Resolve(done[..|done| - 1], parts[1..], rooted)
    else Resolve(if rooted then done else done + [".."], parts[1..], rooted)
  }

  predicate IsAbs(name: string) {
    name != "" && name[0] == '/'
  }

  /** path.Clean: the shortest path that names the same place. */
  function Clean(name: string): string {
    var resolved := Join(Resolve([], Split(name, '/'), IsAbs(name)), '/');
    if IsAbs(name) then "/" + resolved else if resolved == "" then "." else resolved
  }

  /** safeArchivePath. */
  predicate Safe(name: string) {
    name != "" && name != "." && !IsAbs(name) && name != ".." && !("../" <= name)
  }

  /** What unpack and validateArchive ask of a name. */
  predicate Accepted(name: string) {
    Safe(Clean(name)) && Clean(name) == name
  }

  /** A name whose every part is a plain one: nothing empty, no "." and no "..". */
  predicate AllPlain(name: string) {
    forall part :: part in Split(name, '/') ==> Plain(part)
  }

  lemma {:induction false} ResolvePlain(done: seq<string>, parts: seq<string>, rooted: bool)
    requires forall part :: part in parts ==> Plain(part)
    ensures Resolve(done, parts, rooted) == done + parts
    decreases |parts|
  {
    if parts == [] {
      assert done + parts == done;
    } else {
      assert Plain(parts[0]);
      ResolvePlain(done + [parts[0]], parts[1..], rooted);
      assert done + [parts[0]] + parts[1..] == done + parts;
    }
  }

  /** What is left of a path climbs first and then only descends. */
  predicate Climbs(parts: seq<string>) {
    && (forall i :: 0 <= i < |parts| ==> Plain(parts[i]) || parts[i] == "..")
    && (forall i :: 0 < i < |parts| && parts[i] == ".." ==> parts[i - 1] == "..")
  }

  lemma {:induction false} ResolveClimbs(done: seq<string>, parts: seq<string>)
    requires Climbs(done) && forall part :: part in parts ==> '/' !in part
    requires forall part :: part in done ==> '/' !in part
    ensures Climbs(Resolve(done, parts, false))
    ensures forall part :: part in Resolve(done, parts, false) ==> '/' !in part
    decreases |parts|
  {
    if parts != [] {
      var first, rest := parts[0], parts[1..];
      if first == "" || first == "." {
        ResolveClimbs(done, rest);
      } else if first == ".." && done != [] && done[|done| - 1] != ".." {
        ResolveClimbs(done[..|done| - 1], rest);
      } else {
        ResolveClimbs(done + [first], rest);
      }
    }
  }

  lemma {:induction false} ClimbsFromStart(parts: seq<string>, i: nat)
    requires Climbs(parts) && i < |parts| && parts[i] == ".."
    ensures parts[0] == ".."
  {
    if i > 0 {
      ClimbsFromStart(parts, i - 1);
    }
  }

  lemma {:induction false} JoinStart(parts: seq<string>)
    requires parts != []
    ensures |parts| == 1 ==> Join(parts, '/') == parts[0]
    ensures |parts| > 1 ==> parts[0] + "/" <= Join(parts, '/')
  {
  }

  /** The names that are accepted are exactly those made of plain parts. */
  lemma AcceptedIsPlain(name: string)
    ensures Accepted(name) <==> AllPlain(name)
  {
    var parts := Split(name, '/');
    JoinOfSplit(name, '/');
    if AllPlain(name) {
      PlainIsAccepted(name);
    }
    if Accepted(name) {
      AcceptedNeedsPlain(name);
    }
  }

  lemma PlainIsAccepted(name: string)
    requires AllPlain(name)
    ensures Accepted(name)
  {
    var parts := Split(name, '/');
    JoinOfSplit(name, '/');
    ResolvePlain([], parts, false);
    assert [] + parts == parts;
    assert Plain(parts[0]);
    Dots(name);
  }

  lemma {:induction false} Dots(name: string)
    ensures IsAbs(name) ==> Split(name, '/')[0] == ""
    ensures "../" <= name || name == ".." ==> Split(name, '/')[0] == ".."
    ensures name == "." ==> Split(name, '/')[0] == "."
  {
    SplitBody("..", if |name| >= 2 then name[2..] else "", '/');
    SplitBody(".", "", '/');
    assert ".." + "" == ".." && "." + "" == ".";
    assert "../" <= name ==> name == ".." + name[2..] && Split(name[2..], '/')[0] == "";
  }

  lemma AcceptedNeedsPlain(name: string)
    requires Accepted(name)
    ensures AllPlain(name)
  {
    var parts := Split(name, '/');
    JoinOfSplit(name, '/');
    var resolved := Resolve([], parts, false);
    ResolveClimbs([], parts);
    assert resolved != [];
    SplitOfJoin(resolved, '/');
    assert parts == resolved;
    JoinStart(resolved);
    forall part | part in parts ensures Plain(part) {
      var i :| 0 <= i < |parts| && parts[i] == part;
      if part == ".." {
        ClimbsFromStart(resolved, i);
        assert false;
      }
    }
  }
}
