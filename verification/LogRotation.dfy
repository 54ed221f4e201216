/** Keeps a directory of JSONL logs within a number of files and a number of bytes, newest first. */
module LogRotation {
  const PREFIX := "telemetry-"
  const SUFFIX := ".jsonl"

  type Bytes = seq<bv8>

  /** `regular` is false for directories and symbolic links. */
  datatype File = File(content: Bytes, modified: int, regular: bool)

  datatype Candidate = Candidate(name: string, modified: int, size: nat)

  /** The glob `telemetry-*.jsonl`. */
  predicate Matches(name: string) {
    |name| >= |PREFIX| + |SUFFIX| && name[..|PREFIX|] == PREFIX && name[|name| - |SUFFIX|..] == SUFFIX
  }

  // ----- newest first, ties broken by name

  predicate NameBefore(a: string, b: string) {
    if b == "" then false
    else if a == "" then true
    else if a[0] == b[0] then NameBefore(a[1..], b[1..])
    else a[0] < b[0]
  }

  predicate Newer(a: Candidate, b: Candidate) {
    a.modified > b.modified || (a.modified == b.modified && NameBefore(b.name, a.name))
  }

  lemma {:induction false} NamesAreOrdered(a: string, b: string)
    ensures a != b ==> NameBefore(a, b) || NameBefore(b, a)
    ensures !(NameBefore(a, b) && NameBefore(b, a))
  {
    if a != "" && b != "" && a[0] == b[0] {
      NamesAreOrdered(a[1..], b[1..]);
      assert a == [a[0]] + a[1..] && b == [b[0]] + b[1..];
    }
  }

  lemma {:induction false} NamesAreTransitive(a: string, b: string, c: string)
    requires NameBefore(a, b) && NameBefore(b, c)
    ensures NameBefore(a, c)
  {
    if a != "" && a[0] == b[0] && b[0] == c[0] {
      NamesAreTransitive(a[1..], b[1..], c[1..]);
    }
  }

  predicate NewestFirst(s: seq<Candidate>) {
    forall i, j :: 0 <= i < j < |s| ==> Newer(s[i], s[j])
  }

  predicate DistinctNames(s: seq<Candidate>) {
    forall i, j :: 0 <= i < j < |s| ==> s[i].name != s[j].name
  }

  function Insert(x: Candidate, s: seq<Candidate>): seq<Candidate> {
    if s == [] then [x] else if Newer(x, s[0]) then [x] + s else [s[0]] + Insert(x, s[1..])
  }

  function Sorted(s: seq<Candidate>): seq<Candidate> {
    if s == [] then [] else Insert(s[0], Sorted(s[1..]))
  }

  lemma {:induction false} InsertKeepsAll(x: Candidate, s: seq<Candidate>)
    ensures multiset(Insert(x, s)) == multiset(s) + multiset{x}
    ensures forall y :: y in Insert(x, s) <==> y in s || y == x
  {
    if s != [] {
      assert s == [s[0]] + s[1..];
      if !Newer(x, s[0]) {
        InsertKeepsAll(x, s[1..]);
      }
    }
    SameMembers(Insert(x, s), s, x);
  }

  lemma SameMembers(s: seq<Candidate>, t: seq<Candidate>, x: Candidate)
    requires multiset(s) == multiset(t) + multiset{x}
    ensures forall y :: y in s <==> y in t || y == x
  {
    forall y ensures y in s <==> y in t || y == x {
      assert y in s <==> y in multiset(s);
      assert y in t <==> y in multiset(t);
    }
  }

  lemma {:induction false} InsertIsSorted(x: Candidate, s: seq<Candidate>)
    requires NewestFirst(s) && forall y :: y in s ==> y.name != x.name
    ensures NewestFirst(Insert(x, s)) && multiset(Insert(x, s)) == multiset(s) + multiset{x}
  {
    InsertKeepsAll(x, s);
    if s != [] {
      if Newer(x, s[0]) {
        forall y | y in s ensures Newer(x, y) {
          NewerIsTransitive(x, s[0], y);
        }
        PrependNewest(x, s);
      } else {
        InsertIsSorted(x, s[1..]);
        InsertKeepsAll(x, s[1..]);
        NamesAreOrdered(x.name, s[0].name);
        PrependNewest(s[0], Insert(x, s[1..]));
      }
    }
  }

  lemma NewerIsTransitive(a: Candidate, b: Candidate, c: Candidate)
    requires Newer(a, b) && (b == c || Newer(b, c))
    ensures Newer(a, c)
  {
    if b != c && a.modified == b.modified == c.modified {
      NamesAreTransitive(c.name, b.name, a.name);
    }
  }

  lemma PrependNewest(x: Candidate, s: seq<Candidate>)
    requires NewestFirst(s) && forall y :: y in s ==> Newer(x, y)
    ensures NewestFirst([x] + s)
  {
  }

  lemma {:induction false} SortedIsSorted(s: seq<Candidate>)
    requires DistinctNames(s)
    ensures NewestFirst(Sorted(s)) && multiset(Sorted(s)) == multiset(s)
  {
    if s != [] {
      var rest := s[1..];
      assert s == [s[0]] + rest;
      SortedIsSorted(rest);
      forall y | y in Sorted(rest) ensures y.name != s[0].name {
        assert y in multiset(rest);
        var i :| 0 <= i < |rest| && rest[i] == y;
        assert s[i + 1] == y;
      }
      InsertIsSorted(s[0], Sorted(rest));
    }
  }

  // ----- the greedy rotation

  datatype Rotation = Rotation(kept: seq<Candidate>, removed: seq<Candidate>, retained: nat)

  predicate Keeps(r: Rotation, x: Candidate, maxFiles: int, maxBytes: int) {
    r.kept == [] || (|r.kept| < maxFiles && r.retained + x.size <= maxBytes)
  }

  function Advance(r: Rotation, x: Candidate, maxFiles: int, maxBytes: int): Rotation {
    if Keeps(r, x, maxFiles, maxBytes)
    then r.(kept := r.kept + [x], retained := r.retained + x.size)
    else r.(removed := r.removed + [x])
  }

  function Rotated(candidates: seq<Candidate>, maxFiles: int, maxBytes: int): Rotation {
    if candidates == [] then Rotation([], [], 0)
    else
      var last := |candidates| - 1;
      Advance(Rotated(candidates[..last], maxFiles, maxBytes), candidates[last], maxFiles, maxBytes)
  }

  function TotalSize(s: seq<Candidate>): nat {
    if s == [] then 0 else TotalSize(s[..|s| - 1]) + s[|s| - 1].size
  }

  function Larger(a: int, b: int): int {
    if a >= b then a else b
  }

  /** A rotation partitions the candidates into kept and removed ones. */
  lemma {:induction false} RotationPartitions(candidates: seq<Candidate>, maxFiles: int, maxBytes: int)
    ensures var r := Rotated(candidates, maxFiles, maxBytes);
      multiset(r.kept) + multiset(r.removed) == multiset(candidates)
  {
    if candidates != [] {
      var last := |candidates| - 1;
      RotationPartitions(candidates[..last], maxFiles, maxBytes);
      assert candidates == candidates[..last] + [candidates[last]];
    }
  }

  /** It always keeps the newest, and keeps within both limits, the newest alone excepted. */
  lemma {:induction false} RotationKeepsLimits(candidates: seq<Candidate>, maxFiles: int, maxBytes: int)
    requires maxFiles >= 1
    ensures var r := Rotated(candidates, maxFiles, maxBytes);
      r.retained == TotalSize(r.kept) && |r.kept| <= maxFiles &&
      if candidates == [] then r.kept == []
      else r.kept != [] && r.kept[0] == candidates[0] && r.retained <= Larger(maxBytes, candidates[0].size)
  {
    if candidates != [] {
      var last := |candidates| - 1;
      RotationKeepsLimits(candidates[..last], maxFiles, maxBytes);
      var before := Rotated(candidates[..last], maxFiles, maxBytes);
      assert (before.kept + [candidates[last]])[..|before.kept|] == before.kept;
    }
  }

  /** A candidate is removed exactly if it breaks a limit given those kept before it. */
  lemma {:induction false} RemovedBrokeLimit(candidates: seq<Candidate>, maxFiles: int, maxBytes: int, i: nat)
    requires i < |candidates| && NewestFirst(candidates)
    ensures candidates[i] in Rotated(candidates, maxFiles, maxBytes).removed <==>
      !Keeps(Rotated(candidates[..i], maxFiles, maxBytes), candidates[i], maxFiles, maxBytes)
    ensures candidates[i] in Rotated(candidates, maxFiles, maxBytes).kept <==>
      Keeps(Rotated(candidates[..i], maxFiles, maxBytes), candidates[i], maxFiles, maxBytes)
  {
    var last := |candidates| - 1;
    var shorter := candidates[..last];
    if i < last {
      assert shorter[..i] == candidates[..i];
      RemovedBrokeLimit(shorter, maxFiles, maxBytes, i);
      NewerIsIrreflexive(candidates[i], candidates[last]);
    } else {
      NotYetSorted(shorter, candidates[last], maxFiles, maxBytes);
    }
  }

  /** Those of `kept` that are newer than `x`. */
  function NewerOnes(kept: seq<Candidate>, x: Candidate): seq<Candidate> {
    if kept == [] then []
    else
      var last := kept[|kept| - 1];
      NewerOnes(kept[..|kept| - 1], x) + if Newer(last, x) then [last] else []
  }

  lemma {:induction false} AllNewer(kept: seq<Candidate>, x: Candidate)
    requires forall y :: y in kept ==> Newer(y, x)
    ensures NewerOnes(kept, x) == kept
    decreases |kept|
  {
    if kept != [] {
      AllNewer(kept[..|kept| - 1], x);
      assert kept == kept[..|kept| - 1] + [kept[|kept| - 1]];
    }
  }

  lemma OneMoreNewer(kept: seq<Candidate>, y: Candidate, x: Candidate)
    ensures NewerOnes(kept + [y], x) == NewerOnes(kept, x) + if Newer(y, x) then [y] else []
  {
    assert (kept + [y])[..|kept|] == kept;
  }

  /** The kept candidates newer than the i-th are those kept when its turn came. */
  lemma {:induction false} KeptBefore(candidates: seq<Candidate>, maxFiles: int, maxBytes: int, i: nat)
    requires i < |candidates| && NewestFirst(candidates)
    ensures NewerOnes(Rotated(candidates, maxFiles, maxBytes).kept, candidates[i]) ==
      Rotated(candidates[..i], maxFiles, maxBytes).kept
    decreases |candidates|
  {
    var last := |candidates| - 1;
    var shorter, x := candidates[..last], candidates[i];
    var before := Rotated(shorter, maxFiles, maxBytes);
    if i < last {
      KeptBefore(shorter, maxFiles, maxBytes, i);
      assert shorter[..i] == candidates[..i];
      OlderIsNotNewer(x, candidates[last]);
    } else {
      KeptStaysSorted(shorter, maxFiles, maxBytes);
      AllNewer(before.kept, x);
      OlderIsNotNewer(x, x);
    }
    OneMoreNewer(before.kept, candidates[last], x);
  }

  lemma OlderIsNotNewer(a: Candidate, b: Candidate)
    requires a == b || Newer(a, b)
    ensures !Newer(b, a)
  {
    if Newer(b, a) {
      NewerIsTransitive(b, a, b);
      NewerIsIrreflexive(b, b);
    }
  }

  lemma {:induction false} RetainedIsTotal(candidates: seq<Candidate>, maxFiles: int, maxBytes: int)
    ensures var r := Rotated(candidates, maxFiles, maxBytes); r.retained == TotalSize(r.kept)
    decreases |candidates|
  {
    if candidates != [] {
      var last := |candidates| - 1;
      RetainedIsTotal(candidates[..last], maxFiles, maxBytes);
      TotalOneMore(Rotated(candidates[..last], maxFiles, maxBytes).kept, candidates[last]);
    }
  }

  lemma TotalOneMore(s: seq<Candidate>, x: Candidate)
    ensures TotalSize(s + [x]) == TotalSize(s) + x.size
  {
    assert (s + [x])[..|s|] == s;
  }

  /**
   A candidate is removed exactly if newer ones are kept, and either there are `maxFiles` of them already or
   together with it they exceed `maxBytes`; otherwise it is kept.
   */
  lemma RemovedIffLimitBroken(candidates: seq<Candidate>, maxFiles: int, maxBytes: int, i: nat)
    requires i < |candidates| && NewestFirst(candidates)
    ensures var r := Rotated(candidates, maxFiles, maxBytes);
            var newer := NewerOnes(r.kept, candidates[i]);
      (candidates[i] in r.removed <==>
         newer != [] && (|newer| >= maxFiles || TotalSize(newer) + candidates[i].size > maxBytes)) &&
      (candidates[i] in r.kept <==> candidates[i] !in r.removed)
  {
    RemovedBrokeLimit(candidates, maxFiles, maxBytes, i);
    KeptBefore(candidates, maxFiles, maxBytes, i);
    RetainedIsTotal(candidates[..i], maxFiles, maxBytes);
  }

  /** Candidates that break no limit together are all kept. */
  lemma {:induction false} AllFit(candidates: seq<Candidate>, maxFiles: int, maxBytes: int)
    requires |candidates| <= maxFiles && TotalSize(candidates) <= maxBytes
    ensures Rotated(candidates, maxFiles, maxBytes) == Rotation(candidates, [], TotalSize(candidates))
    decreases |candidates|
  {
    if candidates != [] {
      var last := |candidates| - 1;
      AllFit(candidates[..last], maxFiles, maxBytes);
      assert candidates == candidates[..last] + [candidates[last]];
    }
  }

  lemma NewerIsIrreflexive(a: Candidate, b: Candidate)
    requires Newer(a, b)
    ensures a != b
  {
    NamesAreOrdered(a.name, b.name);
  }

  /** What was not a candidate is neither kept nor removed. */
  lemma {:induction false} NotYetSorted(candidates: seq<Candidate>, x: Candidate, maxFiles: int, maxBytes: int)
    requires forall y :: y in candidates ==> Newer(y, x)
    ensures x !in Rotated(candidates, maxFiles, maxBytes).kept && x !in Rotated(candidates, maxFiles, maxBytes).removed
  {
    if candidates != [] {
      var last := |candidates| - 1;
      NotYetSorted(candidates[..last], x, maxFiles, maxBytes);
      NewerIsIrreflexive(candidates[last], x);
    }
  }

  /** A second rotation removes nothing. */
  lemma {:induction false} RotationIsIdempotent(candidates: seq<Candidate>, maxFiles: int, maxBytes: int)
    ensures var r := Rotated(candidates, maxFiles, maxBytes);
      Rotated(r.kept, maxFiles, maxBytes) == Rotation(r.kept, [], r.retained)
  {
    if candidates != [] {
      var last := |candidates| - 1;
      RotationIsIdempotent(candidates[..last], maxFiles, maxBytes);
      var before := Rotated(candidates[..last], maxFiles, maxBytes);
      if Keeps(before, candidates[last], maxFiles, maxBytes) {
        RotateOneMore(before.kept, candidates[last], maxFiles, maxBytes);
      }
    }
  }

  lemma RotateOneMore(candidates: seq<Candidate>, x: Candidate, maxFiles: int, maxBytes: int)
    ensures Rotated(candidates + [x], maxFiles, maxBytes) ==
      Advance(Rotated(candidates, maxFiles, maxBytes), x, maxFiles, maxBytes)
  {
    assert (candidates + [x])[..|candidates|] == candidates;
  }

  lemma {:induction false} KeptStaysSorted(candidates: seq<Candidate>, maxFiles: int, maxBytes: int)
    requires NewestFirst(candidates)
    ensures NewestFirst(Rotated(candidates, maxFiles, maxBytes).kept)
    ensures forall x :: x in Rotated(candidates, maxFiles, maxBytes).kept ==> x in candidates
  {
    if candidates != [] {
      var last := |candidates| - 1;
      KeptStaysSorted(candidates[..last], maxFiles, maxBytes);
      forall x | x in Rotated(candidates[..last], maxFiles, maxBytes).kept ensures Newer(x, candidates[last]) {
        var i :| 0 <= i < last && candidates[..last][i] == x;
        assert Newer(candidates[i], candidates[last]);
      }
    }
  }

  // ----- the directory

  function CandidateOf(name: string, f: File): Candidate {
    Candidate(name, f.modified, |f.content|)
  }

  predicate IsCandidate(files: map<string, File>, name: string) {
    name in files && Matches(name) && files[name].regular
  }

  /** `candidates` are the matching regular files of the directory, newest first. */
  ghost predicate ListsCandidates(candidates: seq<Candidate>, files: map<string, File>) {
    NewestFirst(candidates) && DistinctNames(candidates) &&
    (forall c :: c in candidates ==> IsCandidate(files, c.name) && c == CandidateOf(c.name, files[c.name])) &&
    (forall name :: IsCandidate(files, name) ==> CandidateOf(name, files[name]) in candidates)
  }

  function Names(s: seq<Candidate>): set<string> {
    set c | c in s :: c.name
  }

  datatype RotationResult =
    | InvalidMaxFiles
    | InvalidMaxTotalBytes
    | Done(kept: seq<string>, removed: seq<string>, retainedBytes: nat)

  function NameList(s: seq<Candidate>): seq<string> {
    seq(|s|, i requires 0 <= i < |s| => s[i].name)
  }

  class Directory {
    var files: map<string, File>

    constructor (files: map<string, File>)
      ensures this.files == files
    {
      this.files := files;
    }

    /** Lists and sorts the matching regular files; the listing order does not matter. */
    method Candidates() returns (candidates: seq<Candidate>)
      ensures ListsCandidates(candidates, files)
    {
      var names := set name | name in files && Matches(name) && files[name].regular;
      var listing: seq<Candidate> := [];
      var rest := names;
      while rest != {}
        invariant rest <= names && DistinctNames(listing)
        invariant forall c :: c in listing ==> c.name in names - rest && c == CandidateOf(c.name, files[c.name])
        invariant forall name :: name in names - rest ==> CandidateOf(name, files[name]) in listing
        decreases |rest|
      {
        var name :| name in rest;
        listing := listing + [CandidateOf(name, files[name])];
        rest := rest - {name};
      }
      candidates := Sorted(listing);
      SortedIsSorted(listing);
      SameElements(candidates, listing);
    }
  }

  lemma SameElements(s: seq<Candidate>, t: seq<Candidate>)
    requires multiset(s) == multiset(t) && NewestFirst(s) && DistinctNames(t)
    ensures forall x :: x in s <==> x in t
    ensures DistinctNames(s)
  {
    forall x ensures x in s <==> x in t {
      assert x in s <==> x in multiset(s);
      assert x in t <==> x in multiset(t);
    }
    forall i, j | 0 <= i < j < |s| ensures s[i].name != s[j].name {
      NewerIsIrreflexive(s[i], s[j]);
      assert s[i] in t && s[j] in t;
    }
  }

  /** Removes the logs the rotation does not keep, and leaves every other file alone. */
  method RotateJsonlLogs(directory: Directory, maxFiles: int, maxTotalBytes: int)
    returns (result: RotationResult, ghost candidates: seq<Candidate>)
    modifies directory
    ensures maxFiles < 1 ==> result == InvalidMaxFiles
    ensures maxFiles >= 1 && maxTotalBytes < 1 ==> result == InvalidMaxTotalBytes
    ensures maxFiles >= 1 && maxTotalBytes >= 1 ==> result.Done?
    ensures !result.Done? ==> directory.files == old(directory.files)
    ensures result.Done? ==>
      ListsCandidates(candidates, old(directory.files)) &&
      var r := Rotated(candidates, maxFiles, maxTotalBytes);
      result == Done(NameList(r.kept), NameList(r.removed), r.retained) &&
      directory.files == old(directory.files) - Names(r.removed)
    ensures result.Done? ==> forall name :: name in result.kept <==> IsCandidate(directory.files, name)
    ensures result.Done? && |candidates| <= maxFiles && TotalSize(candidates) <= maxTotalBytes ==>
      result.removed == [] && directory.files == old(directory.files)
  {
    candidates := [];
    if maxFiles < 1 {
      return InvalidMaxFiles, [];
    }
    if maxTotalBytes < 1 {
      return InvalidMaxTotalBytes, [];
    }
    var listed := directory.Candidates();
    candidates := listed;
    result := RemoveRest(directory, listed, maxFiles, maxTotalBytes);
    OnlyKeptRemain(candidates, old(directory.files), maxFiles, maxTotalBytes);
    if |candidates| <= maxFiles && TotalSize(candidates) <= maxTotalBytes {
      AllFit(candidates, maxFiles, maxTotalBytes);
    }
  }

  /** Goes through the candidates, newest first, and removes what breaks a limit. */
  method RemoveRest(directory: Directory, listed: seq<Candidate>, maxFiles: int, maxTotalBytes: int)
    returns (result: RotationResult)
    modifies directory
    ensures var r := Rotated(listed, maxFiles, maxTotalBytes);
      result == Done(NameList(r.kept), NameList(r.removed), r.retained) &&
      directory.files == old(directory.files) - Names(r.removed)
  {
    var kept, removed: seq<string>, retainedBytes := [], [], 0;
    ghost var r := Rotation([], [], 0);
    assert listed[..0] == [];
    for i := 0 to |listed|
      invariant r == Rotated(listed[..i], maxFiles, maxTotalBytes)
      invariant kept == NameList(r.kept) && removed == NameList(r.removed) && retainedBytes == r.retained
      invariant directory.files == old(directory.files) - Names(r.removed)
    {
      var path := listed[i];
      var keepNewest := kept == [];
      var withinCount := |kept| < maxFiles;
      var withinBytes := retainedBytes + path.size <= maxTotalBytes;
      NextRotated(listed, i, maxFiles, maxTotalBytes);
      NamesGrow(r.kept, path);
      NamesGrow(r.removed, path);
      r := Advance(r, path, maxFiles, maxTotalBytes);
      if keepNewest || (withinCount && withinBytes) {
        kept := kept + [path.name];
        retainedBytes := retainedBytes + path.size;
      } else {
        directory.files := directory.files - {path.name};
        removed := removed + [path.name];
      }
    }
    assert listed[..|listed|] == listed;
    result := Done(kept, removed, retainedBytes);
  }

  lemma NextRotated(listed: seq<Candidate>, i: nat, maxFiles: int, maxBytes: int)
    requires i < |listed|
    ensures Rotated(listed[..i + 1], maxFiles, maxBytes) ==
      Advance(Rotated(listed[..i], maxFiles, maxBytes), listed[i], maxFiles, maxBytes)
  {
    assert listed[..i + 1] == listed[..i] + [listed[i]];
    RotateOneMore(listed[..i], listed[i], maxFiles, maxBytes);
  }

  lemma NamesGrow(s: seq<Candidate>, x: Candidate)
    ensures NameList(s + [x]) == NameList(s) + [x.name] && Names(s + [x]) == Names(s) + {x.name}
  {
    assert x in s + [x];
    assert forall y :: y in s ==> y in s + [x];
  }

  /** After a rotation the candidates left in the directory are exactly the kept ones. */
  lemma OnlyKeptRemain(candidates: seq<Candidate>, files: map<string, File>, maxFiles: int, maxBytes: int)
    requires ListsCandidates(candidates, files)
    ensures var r := Rotated(candidates, maxFiles, maxBytes);
      forall name :: name in NameList(r.kept) <==> IsCandidate(files - Names(r.removed), name)
  {
    var r := Rotated(candidates, maxFiles, maxBytes);
    forall name ensures name in NameList(r.kept) <==> IsCandidate(files - Names(r.removed), name) {
      if name in NameList(r.kept) {
        KeptRemains(candidates, files, maxFiles, maxBytes, name);
      }
      if IsCandidate(files - Names(r.removed), name) {
        RemainingIsKept(candidates, files, maxFiles, maxBytes, name);
      }
    }
  }

  lemma KeptRemains(candidates: seq<Candidate>, files: map<string, File>, maxFiles: int, maxBytes: int, name: string)
    requires ListsCandidates(candidates, files) && name in NameList(Rotated(candidates, maxFiles, maxBytes).kept)
    ensures IsCandidate(files - Names(Rotated(candidates, maxFiles, maxBytes).removed), name)
  {
    var r := Rotated(candidates, maxFiles, maxBytes);
    KeptStaysSorted(candidates, maxFiles, maxBytes);
    RemovedWasCandidate(candidates, maxFiles, maxBytes);
    var k :| 0 <= k < |r.kept| && r.kept[k].name == name;
    var c := r.kept[k];
    assert c in candidates;
    var i :| 0 <= i < |candidates| && candidates[i] == c;
    RemovedBrokeLimit(candidates, maxFiles, maxBytes, i);
    assert forall d :: d in r.removed && d.name == name ==> d == c;
  }

  lemma RemainingIsKept(candidates: seq<Candidate>, files: map<string, File>, maxFiles: int, maxBytes: int,
                        name: string)
    requires ListsCandidates(candidates, files)
    requires IsCandidate(files - Names(Rotated(candidates, maxFiles, maxBytes).removed), name)
    ensures CandidateOf(name, files[name]) in Rotated(candidates, maxFiles, maxBytes).kept
    ensures name in NameList(Rotated(candidates, maxFiles, maxBytes).kept)
  {
    var r := Rotated(candidates, maxFiles, maxBytes);
    var c := CandidateOf(name, files[name]);
    assert IsCandidate(files, name) && c in candidates;
    var i :| 0 <= i < |candidates| && candidates[i] == c;
    RemovedBrokeLimit(candidates, maxFiles, maxBytes, i);
    assert c !in r.removed;
    var k :| 0 <= k < |r.kept| && r.kept[k] == c;
    assert NameList(r.kept)[k] == name;
  }

  lemma {:induction false} RemovedWasCandidate(candidates: seq<Candidate>, maxFiles: int, maxBytes: int)
    ensures forall x :: x in Rotated(candidates, maxFiles, maxBytes).removed ==> x in candidates
  {
    if candidates != [] {
      RemovedWasCandidate(candidates[..|candidates| - 1], maxFiles, maxBytes);
    }
  }

  // ----- a second rotation

  lemma FirstIsNewest(s: seq<Candidate>, x: Candidate)
    requires NewestFirst(s) && x in s
    ensures x == s[0] || Newer(s[0], x)
  {
  }

  lemma {:induction false} OneNewestFirst(s: seq<Candidate>, t: seq<Candidate>)
    requires NewestFirst(s) && NewestFirst(t) && forall x :: x in s <==> x in t
    ensures s == t
  {
    EmptyTogether(s, t);
    if s != [] {
      SameNewest(s, t);
      SameRest(s, t);
      OneNewestFirst(s[1..], t[1..]);
      assert s == [s[0]] + s[1..] && t == [t[0]] + t[1..];
    }
  }

  lemma EmptyTogether(s: seq<Candidate>, t: seq<Candidate>)
    requires forall x :: x in s <==> x in t
    ensures s == [] <==> t == []
  {
    if s != [] {
      assert s[0] in s;
    }
    if t != [] {
      assert t[0] in t;
    }
  }

  lemma SameNewest(s: seq<Candidate>, t: seq<Candidate>)
    requires s != [] && t != [] && NewestFirst(s) && NewestFirst(t) && forall x :: x in s <==> x in t
    ensures s[0] == t[0]
  {
    assert s[0] in t && t[0] in s;
    FirstIsNewest(s, t[0]);
    FirstIsNewest(t, s[0]);
    if s[0] != t[0] {
      NewerIsTransitive(s[0], t[0], s[0]);
      NewerIsIrreflexive(s[0], s[0]);
    }
  }

  lemma SameRest(s: seq<Candidate>, t: seq<Candidate>)
    requires s != [] && t != [] && s[0] == t[0] && NewestFirst(s) && NewestFirst(t)
    requires forall x :: x in s <==> x in t
    ensures NewestFirst(s[1..]) && NewestFirst(t[1..]) && forall x :: x in s[1..] <==> x in t[1..]
  {
    forall x ensures x in s[1..] <==> x in t[1..] {
      RestOf(s, x);
      RestOf(t, x);
    }
  }

  lemma RestOf(s: seq<Candidate>, x: Candidate)
    requires s != [] && NewestFirst(s)
    ensures x in s[1..] <==> x in s && x != s[0]
  {
    if x in s[1..] {
      var i :| 0 <= i < |s[1..]| && s[1..][i] == x;
      assert s[i + 1] == x;
      NewerIsIrreflexive(s[0], x);
    }
    if x in s && x != s[0] {
      var i :| 0 <= i < |s| && s[i] == x;
      assert s[1..][i - 1] == x;
    }
  }

  /** What the rotation keeps is what a listing finds afterwards. */
  lemma KeptIsListed(candidates: seq<Candidate>, files: map<string, File>, again: seq<Candidate>,
                     maxFiles: int, maxBytes: int)
    requires ListsCandidates(candidates, files)
    requires ListsCandidates(again, files - Names(Rotated(candidates, maxFiles, maxBytes).removed))
    ensures again == Rotated(candidates, maxFiles, maxBytes).kept
  {
    var kept := Rotated(candidates, maxFiles, maxBytes).kept;
    KeptStaysSorted(candidates, maxFiles, maxBytes);
    forall x ensures x in again <==> x in kept {
      ListedIffKept(candidates, files, again, maxFiles, maxBytes, x);
    }
    OneNewestFirst(again, kept);
  }

  lemma ListedIffKept(candidates: seq<Candidate>, files: map<string, File>, again: seq<Candidate>,
                      maxFiles: int, maxBytes: int, x: Candidate)
    requires ListsCandidates(candidates, files)
    requires ListsCandidates(again, files - Names(Rotated(candidates, maxFiles, maxBytes).removed))
    ensures x in again <==> x in Rotated(candidates, maxFiles, maxBytes).kept
  {
    var r := Rotated(candidates, maxFiles, maxBytes);
    var after := files - Names(r.removed);
    KeptStaysSorted(candidates, maxFiles, maxBytes);
    if x in again {
      assert IsCandidate(after, x.name) && after[x.name] == files[x.name];
      RemainingIsKept(candidates, files, maxFiles, maxBytes, x.name);
    }
    if x in r.kept {
      var k :| 0 <= k < |r.kept| && r.kept[k] == x;
      assert NameList(r.kept)[k] == x.name && x in candidates;
      KeptRemains(candidates, files, maxFiles, maxBytes, x.name);
    }
  }

  /** Rotating the directory a second time, listing it anew, removes nothing and keeps the same. */
  lemma RotatingAgain(candidates: seq<Candidate>, files: map<string, File>, again: seq<Candidate>,
                      maxFiles: int, maxBytes: int)
    requires ListsCandidates(candidates, files)
    requires ListsCandidates(again, files - Names(Rotated(candidates, maxFiles, maxBytes).removed))
    ensures var r := Rotated(candidates, maxFiles, maxBytes);
      Rotated(again, maxFiles, maxBytes) == Rotation(r.kept, [], r.retained)
  {
    KeptIsListed(candidates, files, again, maxFiles, maxBytes);
    RotationIsIdempotent(candidates, maxFiles, maxBytes);
  }
}
