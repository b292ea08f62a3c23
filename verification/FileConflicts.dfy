/** Detection of overlapping proposed files: a sort and a backward scan with an early stop, against the
    quadratic definition of overlap. */
module FileConflicts {
  import opened Wrappers
  import opened Texts
  import opened KeyedSort

  datatype SlotArtifact = SlotArtifact(slotId: Text, proposedFiles: seq<Text>, providerId: Option<Text>)

  datatype Source = Source(slotId: Text, providerId: Option<Text>)

  type Entry = Keyed<Source>

  datatype Conflict = Conflict(path: Text, a: Source, b: Source)

  const SLASH: CodeUnit := 47

  // " ⇄ "
  const OVERLAPS: Text := [32, 0x21C4, 32]

  /** One slash is put in front of a name that lacks it. */
  function Rooted(file: Text): (r: Text)
    ensures r != [] && r[0] == SLASH
    ensures r == file || (r[1..] == file && !(file != [] && file[0] == SLASH))
  {
    if file != [] && file[0] == SLASH then file else [SLASH] + file
  }

  function EntriesOf(a: SlotArtifact): (r: seq<Entry>)
    ensures |r| == |a.proposedFiles|
  {
    seq(|a.proposedFiles|, i requires 0 <= i < |a.proposedFiles| => Keyed(Rooted(a.proposedFiles[i]), Source(a.slotId, a.providerId)))
  }

  function Entries(artifacts: seq<SlotArtifact>): seq<Entry> {
    if artifacts == [] then [] else Entries(artifacts[..|artifacts| - 1]) + EntriesOf(artifacts[|artifacts| - 1])
  }

  /** `q` lies in the directory `p`. */
  predicate Inside(p: Text, q: Text) {
    p + [SLASH] <= q
  }

  /** The path up to and including its last slash. */
  function Directory(p: Text): (d: Text)
    ensures d <= p
  {
    if p == [] || p[|p| - 1] == SLASH then p else Directory(p[..|p| - 1])
  }

  // The scan backwards from `path` ends at this earlier entry.
  predicate Stops(path: Text, prev: Text) {
    !(Directory(prev) <= path) && prev != path
  }

  // ---- What the scan reports, entry by entry ----

  /** The first entry from `from` on with this path. */
  function FirstFrom(s: seq<Entry>, path: Text, from: nat): (k: nat)
    requires from <= |s|
    ensures from <= k <= |s|
    ensures forall i :: from <= i < k ==> s[i].key != path
    ensures k < |s| ==> s[k].key == path
    decreases |s| - from
  {
    if from == |s| || s[from].key == path then from else FirstFrom(s, path, from + 1)
  }

  function First(s: seq<Entry>, path: Text): (k: nat)
    ensures k <= |s|
  {
    FirstFrom(s, path, 0)
  }

  function ScanBack(s: seq<Entry>, i: nat, j: int): seq<Conflict>
    requires i < |s| && j < i
    decreases j
  {
    if j < 0 || Stops(s[i].key, s[j].key) then []
    else
      (if Inside(s[j].key, s[i].key) then [Conflict(s[i].key + OVERLAPS + s[j].key, s[j].val, s[i].val)] else [])
      + ScanBack(s, i, j - 1)
  }

  function ConflictsAt(s: seq<Entry>, i: nat): seq<Conflict>
    requires i < |s|
  {
    var k := First(s, s[i].key);
    if k < i then [Conflict(s[i].key, s[k].val, s[i].val)] else ScanBack(s, i, i - 1)
  }

  function Concat<T>(parts: seq<seq<T>>): seq<T> {
    if parts == [] then [] else Concat(parts[..|parts| - 1]) + parts[|parts| - 1]
  }

  lemma ConcatNext<T>(parts: seq<seq<T>>, n: nat)
    requires n < |parts|
    ensures Concat(parts[..n + 1]) == Concat(parts[..n]) + parts[n]
  {
    assert parts[..n + 1][..n] == parts[..n];
  }

  lemma {:induction false} ConcatNonempty<T>(parts: seq<seq<T>>)
    ensures Concat(parts) != [] <==> exists i :: 0 <= i < |parts| && parts[i] != []
  {
    if parts != [] {
      ConcatNonempty(parts[..|parts| - 1]);
    }
  }

  function Reported(s: seq<Entry>): (r: seq<seq<Conflict>>)
    ensures |r| == |s|
    ensures forall i :: 0 <= i < |s| ==> r[i] == ConflictsAt(s, i)
  {
    seq(|s|, i requires 0 <= i < |s| => ConflictsAt(s, i))
  }

  function SortedConflicts(s: seq<Entry>): seq<Conflict> {
    Concat(Reported(s))
  }

  function Conflicts(artifacts: seq<SlotArtifact>): seq<Conflict> {
    SortedConflicts(Sort(Entries(artifacts)))
  }

  // `entries.find(e => e.path === path && e.slotId === slotId)`
  function FindEntry(s: seq<Entry>, path: Text, slotId: Text, from: nat): (k: nat)
    requires from <= |s|
    ensures from <= k <= |s|
    decreases |s| - from
  {
    if from == |s| || (s[from].key == path && s[from].val.slotId == slotId) then from else FindEntry(s, path, slotId, from + 1)
  }

  lemma {:induction false} FindFirst(s: seq<Entry>, path: Text, slotId: Text, from: nat)
    requires from <= |s|
    requires FirstFrom(s, path, from) < |s| && s[FirstFrom(s, path, from)].val.slotId == slotId
    ensures FindEntry(s, path, slotId, from) == FirstFrom(s, path, from)
    decreases |s| - from
  {
    if s[from].key != path {
      FindFirst(s, path, slotId, from + 1);
    }
  }

  function PathAt(s: seq<Entry>, k: nat): Text
    requires k < |s|
  {
    s[k].key
  }

  // The map holds the slot of the first entry of each path seen so far.
  ghost predicate SeenUpTo(s: seq<Entry>, n: nat, seen: map<Text, Text>)
    requires n <= |s|
  {
    && (forall p :: p in seen ==> First(s, p) < n && seen[p] == s[First(s, p)].val.slotId)
    && (forall k :: 0 <= k < n ==> PathAt(s, k) in seen)
  }

  lemma SeenNext(s: seq<Entry>, i: nat, seen: map<Text, Text>)
    requires i < |s| && SeenUpTo(s, i, seen)
    ensures SeenUpTo(s, i + 1, if s[i].key in seen then seen else seen[s[i].key := s[i].val.slotId])
    ensures s[i].key in seen <==> First(s, s[i].key) < i
  {
    FirstAtMost(s, i);
    var k := First(s, s[i].key);
    assert k < i ==> PathAt(s, k) in seen;
  }

  lemma FirstAtMost(s: seq<Entry>, i: nat)
    requires i < |s|
    ensures First(s, s[i].key) <= i && s[First(s, s[i].key)].key == s[i].key
  {
  }

  method CollectEntries(artifacts: seq<SlotArtifact>) returns (entries: seq<Entry>)
    ensures entries == Entries(artifacts)
  {
    entries := [];
    for a := 0 to |artifacts|
      invariant entries == Entries(artifacts[..a])
    {
      var files := artifacts[a].proposedFiles;
      ghost var before := entries;
      for f := 0 to |files|
        invariant entries == before + EntriesOf(artifacts[a])[..f]
      {
        entries := entries + [Keyed(Rooted(files[f]), Source(artifacts[a].slotId, artifacts[a].providerId))];
      }
      assert artifacts[..a + 1][..a] == artifacts[..a];
    }
    assert artifacts[..|artifacts|] == artifacts;
  }

  method ScanFrom(entries: seq<Entry>, i: nat) returns (conflicts: seq<Conflict>)
    requires i < |entries|
    ensures conflicts == ScanBack(entries, i, i - 1)
  {
    conflicts := [];
    var path := entries[i].key;
    var j := i - 1;
    while j >= 0
      invariant -1 <= j < i
      invariant conflicts + ScanBack(entries, i, j) == ScanBack(entries, i, i - 1)
    {
      var prev := entries[j].key;
      if !(Directory(prev) <= path) && prev != path {
        break;
      }
      if prev + [SLASH] <= path {
        conflicts := conflicts + [Conflict(path + OVERLAPS + prev, entries[j].val, entries[i].val)];
      }
      j := j - 1;
    }
  }

  /** `detectFileConflicts` */
  method DetectFileConflicts(artifacts: seq<SlotArtifact>) returns (clean: bool, conflicts: seq<Conflict>)
    ensures conflicts == Conflicts(artifacts)
    ensures clean <==> conflicts == []
  {
    var entries := CollectEntries(artifacts);
    entries := Sort(entries);
    conflicts := [];
    // path -> slot of its first entry
    var seen: map<Text, Text> := map[];
    ghost var reported := Reported(entries);
    for i := 0 to |entries|
      invariant conflicts == Concat(reported[..i])
      invariant SeenUpTo(entries, i, seen)
    {
      var path := entries[i].key;
      SeenNext(entries, i, seen);
      ConcatNext(reported, i);
      if path in seen {
        FindFirst(entries, path, seen[path], 0);
        var prev := entries[FindEntry(entries, path, seen[path], 0)];
        conflicts := conflicts + [Conflict(path, Source(seen[path], prev.val.providerId), entries[i].val)];
      } else {
        seen := seen[path := entries[i].val.slotId];
        var found := ScanFrom(entries, i);
        conflicts := conflicts + found;
      }
    }
    assert reported[..|entries|] == reported;
    clean := |conflicts| == 0;
  }

  // ---- Order of paths under one directory ----

  /** Whatever sorts between a path and one of its extensions extends that path too. */
  lemma {:induction false} BetweenExtends(p: Text, r: Text, q: Text)
    requires p <= q && !Less(r, p) && !Less(q, r)
    ensures p <= r
    ensures |r| > |p| ==> |q| > |p| && r[|p|] <= q[|p|]
  {
    if p == [] {
      if r != [] && q != [] { LessTotal(r, q); }
    } else {
      assert r != [] && r[0] == p[0];
      BetweenExtends(p[1..], r[1..], q[1..]);
      assert r == [r[0]] + r[1..] && p == [p[0]] + p[1..];
    }
  }

  lemma {:induction false} PrefixNotGreater(p: Text, q: Text)
    requires p <= q
    ensures !Less(q, p)
    ensures p != q ==> Less(p, q)
  {
    if p != [] {
      PrefixNotGreater(p[1..], q[1..]);
      assert p == [p[0]] + p[1..] && q == [q[0]] + q[1..];
    }
  }

  lemma {:induction false} DirectoryExtends(p: Text, t: Text)
    ensures SLASH !in t ==> Directory(p + t) == Directory(p)
    ensures SLASH in t ==> |Directory(p + t)| > |p|
  {
    if t != [] {
      var last := |t| - 1;
      assert t == t[..last] + [t[last]];
      assert (p + t)[..|p + t| - 1] == p + t[..last];
      assert (p + t)[|p + t| - 1] == t[last];
      DirectoryExtends(p, t[..last]);
    } else {
      assert p + t == p;
    }
  }

  // ---- Exactly when the scan finds an overlap ----

  /** `r` continues `p` with a character that sorts below the slash, and has a slash after that. */
  predicate Shadows(p: Text, r: Text) {
    p <= r && |r| > |p| && r[|p|] < SLASH && SLASH in r[|p|..]
  }

  ghost predicate Shadowed(paths: seq<Text>, p: Text) {
    exists i :: 0 <= i < |paths| && Shadows(p, paths[i])
  }

  ghost predicate HasInside(paths: seq<Text>, p: Text) {
    exists i :: 0 <= i < |paths| && Inside(p, paths[i])
  }

  ghost predicate NoDuplicates(paths: seq<Text>) {
    forall i, j :: 0 <= i < j < |paths| ==> paths[i] != paths[j]
  }

  // An entry that scanning back from `i` meets, and that reports a conflict.
  ghost predicate Reports(s: seq<Entry>, i: nat, k: nat) {
    && k < i < |s| && Inside(s[k].key, s[i].key)
    && forall m :: k <= m < i ==> !Stops(s[i].key, s[m].key)
  }

  ghost predicate SomeReport(s: seq<Entry>, i: nat, j: int) {
    exists k: nat :: k <= j && Reports(s, i, k)
  }

  lemma ReportsStep(s: seq<Entry>, i: nat, j: nat)
    requires j < i < |s| && forall m :: j < m < i ==> !Stops(s[i].key, s[m].key)
    ensures SomeReport(s, i, j) <==> !Stops(s[i].key, s[j].key) && (Inside(s[j].key, s[i].key) || SomeReport(s, i, j - 1))
  {
    if !Stops(s[i].key, s[j].key) && Inside(s[j].key, s[i].key) {
      assert Reports(s, i, j);
    }
    if SomeReport(s, i, j) {
      var k: nat :| k <= j && Reports(s, i, k);
      assert !Stops(s[i].key, s[j].key);
    }
  }

  lemma {:induction false} ScanBackReports(s: seq<Entry>, i: nat, j: int)
    requires i < |s| && -1 <= j < i
    requires forall m :: j < m < i ==> !Stops(s[i].key, s[m].key)
    ensures ScanBack(s, i, j) != [] <==> SomeReport(s, i, j)
    decreases j
  {
    if j >= 0 {
      ReportsStep(s, i, j);
      if !Stops(s[i].key, s[j].key) {
        ScanBackReports(s, i, j - 1);
      }
    }
  }

  ghost predicate Clash(s: seq<Entry>, i: nat) {
    i < |s| && ConflictsAt(s, i) != []
  }

  /** An entry below a reported directory: nothing between the two stops the scan, so nothing shadows. */
  lemma ReportedNotShadowed(s: seq<Entry>, i: nat, k: nat)
    requires Sorted(s) && Reports(s, i, k)
    ensures !Shadowed(Keys(s), s[k].key)
  {
    if m: nat :| m < |s| && Shadows(s[k].key, Keys(s)[m]) {
      ShadowerBetween(s, i, k, m);
    }
  }

  lemma InsideAt(p: Text, q: Text)
    requires Inside(p, q)
    ensures p <= q && |q| > |p| && q[|p|] == SLASH
  {
    assert q[|p|] == (p + [SLASH])[|p|];
  }

  // An entry that shadows a directory lies between it and what is inside it, and stops the scan.
  lemma ShadowerBetween(s: seq<Entry>, i: nat, k: nat, m: nat)
    requires Sorted(s) && k < i < |s| && m < |s| && Inside(s[k].key, s[i].key) && Shadows(s[k].key, s[m].key)
    ensures k < m < i && Stops(s[i].key, s[m].key)
  {
    var p, q, r := s[k].key, s[i].key, s[m].key;
    InsideAt(p, q);
    PrefixNotGreater(p, r);
    ShadowBelow(p, r, q);
    LessIrreflexive(p);
    ShadowStops(p, r, q);
  }

  lemma ShadowStops(p: Text, r: Text, q: Text)
    requires Shadows(p, r) && p <= q && |q| > |p| && q[|p|] == SLASH
    ensures Stops(q, r)
  {
    assert r == p + r[|p|..] by {
      assert p == r[..|p|];
    }
    DirectoryExtends(p, r[|p|..]);
    assert Directory(r)[|p|] == r[|p|];
  }

  lemma {:induction false} ShadowBelow(p: Text, r: Text, q: Text)
    requires p <= r && p <= q && |r| > |p| && |q| > |p| && r[|p|] < q[|p|]
    ensures Less(r, q)
  {
    if p != [] {
      ShadowBelow(p[1..], r[1..], q[1..]);
    }
  }

  /** The first entry below an unshadowed directory is found. */
  lemma FirstInsideReported(s: seq<Entry>, k: nat, i: nat)
    requires Sorted(s) && k < |s| && i < |s| && Inside(s[k].key, s[i].key)
    requires forall m :: 0 <= m < i ==> !Inside(s[k].key, s[m].key)
    requires !Shadowed(Keys(s), s[k].key)
    ensures Reports(s, i, k)
  {
    var p, q := s[k].key, s[i].key;
    PrefixNotGreater(p, q);
    assert k < i;
    forall m | k <= m < i ensures !Stops(q, s[m].key) {
      NotGreaterBetween(s, k, m, i);
      assert !Shadows(p, Keys(s)[m]);
      PassedOver(p, s[m].key, q);
    }
  }

  // An entry between a directory and a path inside it, neither inside nor shadowing, does not stop the scan.
  lemma PassedOver(p: Text, r: Text, q: Text)
    requires Inside(p, q) && !Inside(p, r) && !Shadows(p, r)
    requires !Less(r, p) && !Less(q, r)
    ensures !Stops(q, r)
  {
    assert p <= q && q[|p|] == (p + [SLASH])[|p|] == SLASH;
    BetweenExtends(p, r, q);
    assert r == p + r[|p|..] by {
      assert p == r[..|p|];
    }
    assert |r| > |p| ==> (Inside(p, r) <==> r[|p|] == SLASH);
    DirectoryExtends(p, r[|p|..]);
  }

  lemma NotGreaterBetween(s: seq<Entry>, k: nat, m: nat, i: nat)
    requires Sorted(s) && k <= m < i < |s|
    ensures !Less(s[m].key, s[k].key) && !Less(s[i].key, s[m].key)
  {
    LessIrreflexive(s[k].key);
  }

  lemma LeastInside(s: seq<Entry>, p: Text, n: nat) returns (i: nat)
    requires n < |s| && Inside(p, s[n].key)
    ensures i < |s| && Inside(p, s[i].key)
    ensures forall m :: 0 <= m < i ==> !Inside(p, s[m].key)
  {
    i := 0;
    while !Inside(p, s[i].key)
      invariant i <= n
      invariant forall m :: 0 <= m < i ==> !Inside(p, s[m].key)
      decreases n - i
    {
      i := i + 1;
    }
  }

  ghost predicate EveryDirectoryShadowed(paths: seq<Text>) {
    forall k :: 0 <= k < |paths| && HasInside(paths, paths[k]) ==> Shadowed(paths, paths[k])
  }

  /** On sorted entries nothing is reported exactly when no path occurs twice and every path that has another
      inside it is shadowed. */
  lemma CleanExactlySorted(s: seq<Entry>)
    requires Sorted(s)
    ensures SortedConflicts(s) == [] <==> NoDuplicates(Keys(s)) && EveryDirectoryShadowed(Keys(s))
  {
    SomethingReported(s);
    if SortedConflicts(s) != [] {
      var i: nat :| i < |s| && Clash(s, i);
      DirtyEntry(s, i);
    }
    if !NoDuplicates(Keys(s)) {
      var i, j :| 0 <= i < j < |s| && Keys(s)[i] == Keys(s)[j];
      FirstAtMost(s, i);
      assert Clash(s, j);
    } else if !EveryDirectoryShadowed(Keys(s)) {
      UnshadowedFound(s);
    }
  }

  lemma SomethingReported(s: seq<Entry>)
    ensures SortedConflicts(s) != [] <==> exists i: nat :: i < |s| && Clash(s, i)
  {
    var r := Reported(s);
    ConcatNonempty(r);
    forall i: nat | i < |s| ensures Clash(s, i) <==> r[i] != [] {
    }
  }

  lemma DirtyEntry(s: seq<Entry>, i: nat)
    requires Sorted(s) && Clash(s, i)
    ensures !NoDuplicates(Keys(s)) || !EveryDirectoryShadowed(Keys(s))
  {
    if First(s, s[i].key) < i {
      assert Keys(s)[First(s, s[i].key)] == Keys(s)[i];
    } else {
      ScanBackReports(s, i, i - 1);
      var k: nat :| k <= i - 1 && Reports(s, i, k);
      ReportedNotShadowed(s, i, k);
      assert Inside(Keys(s)[k], Keys(s)[i]);
    }
  }

  lemma UnshadowedDirectory(paths: seq<Text>) returns (k: nat, n: nat)
    requires !EveryDirectoryShadowed(paths)
    ensures k < |paths| && n < |paths| && Inside(paths[k], paths[n]) && !Shadowed(paths, paths[k])
  {
    k :| k < |paths| && HasInside(paths, paths[k]) && !Shadowed(paths, paths[k]);
    n :| n < |paths| && Inside(paths[k], paths[n]);
  }

  lemma UnshadowedFound(s: seq<Entry>)
    requires Sorted(s) && NoDuplicates(Keys(s)) && !EveryDirectoryShadowed(Keys(s))
    ensures exists i: nat :: i < |s| && Clash(s, i)
  {
    var k, n := UnshadowedDirectory(Keys(s));
    var i := LeastInside(s, s[k].key, n);
    FirstInsideReported(s, k, i);
    ReportedClashes(s, i, k);
  }

  lemma ReportedClashes(s: seq<Entry>, i: nat, k: nat)
    requires Reports(s, i, k) && NoDuplicates(Keys(s))
    ensures Clash(s, i)
  {
    assert k <= i - 1 && Reports(s, i, k);
    ScanBackReports(s, i, i - 1);
    NoEarlierSame(s, i);
  }

  lemma NoEarlierSame(s: seq<Entry>, i: nat)
    requires i < |s| && NoDuplicates(Keys(s))
    ensures First(s, s[i].key) == i
  {
    FirstAtMost(s, i);
    var k := First(s, s[i].key);
    assert Keys(s)[k] == Keys(s)[i];
  }

  // ---- The verdict, in terms of the proposed paths ----

  /** The proposed paths, in any order. */
  function Paths(artifacts: seq<SlotArtifact>): seq<Text> {
    Keys(Entries(artifacts))
  }

  /** The quadratic definition: two entries overlap when their paths are equal or one lies inside the other. */
  ghost predicate NoOverlap(paths: seq<Text>) {
    forall i, j :: 0 <= i < |paths| && 0 <= j < |paths| && i != j ==> paths[i] != paths[j] && !Inside(paths[i], paths[j])
  }

  lemma InsideIsOther(p: Text)
    ensures !Inside(p, p)
  {
  }

  lemma SortedPaths(artifacts: seq<SlotArtifact>)
    ensures var sorted := Keys(Sort(Entries(artifacts)));
            && multiset(sorted) == multiset(Paths(artifacts))
            && |sorted| == |Paths(artifacts)|
  {
    KeysMultiset(Sort(Entries(artifacts)), Entries(artifacts));
    SameLength(Keys(Sort(Entries(artifacts))), Paths(artifacts));
  }

  lemma RearrangedVerdict(a: seq<Text>, b: seq<Text>)
    requires multiset(a) == multiset(b)
    ensures NoDuplicates(a) ==> NoDuplicates(b)
    ensures EveryDirectoryShadowed(a) ==> EveryDirectoryShadowed(b)
  {
    if NoDuplicates(a) {
      DistinctMultiset(a, b);
    }
    SameElements(a, b);
    if EveryDirectoryShadowed(a) {
      forall k | 0 <= k < |b| && HasInside(b, b[k]) ensures Shadowed(b, b[k]) {
        var n :| 0 <= n < |b| && Inside(b[k], b[n]);
        assert b[k] in a && b[n] in a;
        var k', n' :| 0 <= k' < |a| && 0 <= n' < |a| && a[k'] == b[k] && a[n'] == b[n];
        assert HasInside(a, a[k']);
        var m :| 0 <= m < |a| && Shadows(a[k'], a[m]);
        assert a[m] in b;
      }
    }
  }

  /** The verdict is `clean` exactly when no path is proposed twice and every path that has another inside it is
      shadowed by a third. */
  lemma CleanExactly(artifacts: seq<SlotArtifact>)
    ensures Conflicts(artifacts) == [] <==> NoDuplicates(Paths(artifacts)) && EveryDirectoryShadowed(Paths(artifacts))
  {
    var s := Sort(Entries(artifacts));
    SortSorted(Entries(artifacts));
    CleanExactlySorted(s);
    SortedPaths(artifacts);
    RearrangedVerdict(Keys(s), Paths(artifacts));
    RearrangedVerdict(Paths(artifacts), Keys(s));
  }

  /** When no path continues a directory's path with a character below the slash, `clean` is the quadratic definition. */
  lemma CleanIsNoOverlap(artifacts: seq<SlotArtifact>)
    requires forall i :: 0 <= i < |Paths(artifacts)| ==> !Shadowed(Paths(artifacts), Paths(artifacts)[i])
    ensures Conflicts(artifacts) == [] <==> NoOverlap(Paths(artifacts))
  {
    CleanExactly(artifacts);
    NoOverlapExactly(Paths(artifacts));
  }

  lemma NoOverlapExactly(paths: seq<Text>)
    ensures NoOverlap(paths) <==> NoDuplicates(paths) && forall k :: 0 <= k < |paths| ==> !HasInside(paths, paths[k])
  {
    if NoOverlap(paths) {
      forall k | 0 <= k < |paths| ensures !HasInside(paths, paths[k]) {
        InsideIsOther(paths[k]);
      }
    }
  }

  /** The verdict agrees with the quadratic definition exactly when there is no overlap at all, a path is proposed
      twice, or some path with another inside it is not shadowed. */
  lemma VerdictRightExactly(artifacts: seq<SlotArtifact>)
    ensures (Conflicts(artifacts) == [] <==> NoOverlap(Paths(artifacts))) <==>
              || NoOverlap(Paths(artifacts))
              || !NoDuplicates(Paths(artifacts))
              || exists k :: 0 <= k < |Paths(artifacts)| && HasInside(Paths(artifacts), Paths(artifacts)[k])
                             && !Shadowed(Paths(artifacts), Paths(artifacts)[k])
  {
    CleanExactly(artifacts);
    NoOverlapExactly(Paths(artifacts));
  }

  /** Outside that condition the verdict is wrong: `-` sorts below the slash, so the scan back from `/a/b` stops at
      `/a-x/y` and never meets `/a`. */
  lemma ShadowedOverlapMissed()
    ensures var a := [SlotArtifact(Ascii("s1"), [Ascii("/a")], None), SlotArtifact(Ascii("s2"), [Ascii("/a-x/y")], None),
                      SlotArtifact(Ascii("s3"), [Ascii("/a/b")], None)];
            Conflicts(a) == [] && !NoOverlap(Paths(a))
  {
    var a := [SlotArtifact(Ascii("s1"), [Ascii("/a")], None), SlotArtifact(Ascii("s2"), [Ascii("/a-x/y")], None),
              SlotArtifact(Ascii("s3"), [Ascii("/a/b")], None)];
    assert a[..2] == [a[0], a[1]] && a[..2][..1] == [a[0]] && a[..2][..1][..0] == [];
    assert Entries(a) == Entries(a[..2]) + EntriesOf(a[2]);
    assert Entries(a[..2]) == Entries(a[..2][..1]) + EntriesOf(a[1]);
    assert Entries(a[..2][..1]) == EntriesOf(a[0]);
    var paths := Paths(a);
    ThreePaths(paths);
    CleanExactly(a);
  }

  lemma ThreePaths(paths: seq<Text>)
    requires |paths| == 3 && paths[0] == Ascii("/a") && paths[1] == Ascii("/a-x/y") && paths[2] == Ascii("/a/b")
    ensures NoDuplicates(paths) && EveryDirectoryShadowed(paths) && !NoOverlap(paths)
  {
    var p, r, q := paths[0], paths[1], paths[2];
    assert r[|p|..][2] == SLASH;
    assert Shadows(p, r);
    assert p + [SLASH] == q[..3];
    assert Inside(p, q);
    assert r[2] != SLASH && |q| == 4 && q[3] != SLASH;
    assert !Inside(r, p) && !Inside(r, q) && !Inside(q, p) && !Inside(q, r) && !Inside(p, p) && !Inside(q, q) && !Inside(r, r) by {
      assert |q + [SLASH]| == 5 && (q + [SLASH])[2] == SLASH;
    }
  }

  // ---- Every report is a true overlap ----

  ghost predicate TrueOverlap(s: seq<Entry>, c: Conflict) {
    exists k, i ::
      && 0 <= k < i < |s| && c.a == s[k].val && c.b == s[i].val
      && (|| (s[k].key == s[i].key && c.path == s[i].key)
          || (Inside(s[k].key, s[i].key) && c.path == s[i].key + OVERLAPS + s[k].key))
  }

  lemma {:induction false} ScanBackSound(s: seq<Entry>, i: nat, j: int, c: Conflict)
    requires i < |s| && j < i && c in ScanBack(s, i, j)
    ensures TrueOverlap(s, c)
    decreases j
  {
    if c !in ScanBack(s, i, j - 1) {
      assert Inside(s[j].key, s[i].key) && c == Conflict(s[i].key + OVERLAPS + s[j].key, s[j].val, s[i].val);
    } else {
      ScanBackSound(s, i, j - 1, c);
    }
  }

  lemma {:induction false} ConcatContains<T>(parts: seq<seq<T>>, e: T)
    ensures e in Concat(parts) <==> exists i :: 0 <= i < |parts| && e in parts[i]
  {
    if parts != [] {
      ConcatContains(parts[..|parts| - 1], e);
    }
  }

  /** Each reported conflict names two different entries, by slot and provider, whose paths are equal or one inside
      the other, and its label says which. */
  lemma ReportsAreOverlaps(artifacts: seq<SlotArtifact>, c: Conflict)
    requires c in Conflicts(artifacts)
    ensures TrueOverlap(Sort(Entries(artifacts)), c)
  {
    SortedReportsAreOverlaps(Sort(Entries(artifacts)), c);
  }

  lemma SortedReportsAreOverlaps(s: seq<Entry>, c: Conflict)
    requires c in SortedConflicts(s)
    ensures TrueOverlap(s, c)
  {
    ConcatContains(Reported(s), c);
    var i: nat :| i < |s| && c in Reported(s)[i];
    ConflictIsOverlap(s, i, c);
  }

  lemma ConflictIsOverlap(s: seq<Entry>, i: nat, c: Conflict)
    requires i < |s| && c in ConflictsAt(s, i)
    ensures TrueOverlap(s, c)
  {
    FirstAtMost(s, i);
    if First(s, s[i].key) == i {
      ScanBackSound(s, i, i - 1, c);
    }
  }

  // ---- The order of artifacts and files does not matter ----

  function Labels(cs: seq<Conflict>): (r: seq<Text>)
    ensures |r| == |cs|
  {
    seq(|cs|, i requires 0 <= i < |cs| => cs[i].path)
  }

  lemma LabelsAppend(a: seq<Conflict>, b: seq<Conflict>)
    ensures Labels(a + b) == Labels(a) + Labels(b)
  {
  }

  lemma {:induction false} FirstFollowsPaths(s: seq<Entry>, t: seq<Entry>, path: Text, from: nat)
    requires |s| == |t| && (forall i :: 0 <= i < |s| ==> s[i].key == t[i].key) && from <= |s|
    ensures FirstFrom(s, path, from) == FirstFrom(t, path, from)
    decreases |s| - from
  {
    if from < |s| && s[from].key != path {
      FirstFollowsPaths(s, t, path, from + 1);
    }
  }

  lemma {:induction false} ScanFollowsPaths(s: seq<Entry>, t: seq<Entry>, i: nat, j: int)
    requires |s| == |t| && (forall k :: 0 <= k < |s| ==> s[k].key == t[k].key) && i < |s| && j < i
    ensures Labels(ScanBack(s, i, j)) == Labels(ScanBack(t, i, j))
    decreases j
  {
    if j >= 0 && !Stops(s[i].key, s[j].key) {
      ScanFollowsPaths(s, t, i, j - 1);
      if Inside(s[j].key, s[i].key) {
        var text := s[i].key + OVERLAPS + s[j].key;
        LabelsAppend([Conflict(text, s[j].val, s[i].val)], ScanBack(s, i, j - 1));
        LabelsAppend([Conflict(text, t[j].val, t[i].val)], ScanBack(t, i, j - 1));
      } else {
        assert ScanBack(s, i, j) == ScanBack(s, i, j - 1);
        assert ScanBack(t, i, j) == ScanBack(t, i, j - 1);
      }
    }
  }

  lemma ConflictsFollowPaths(s: seq<Entry>, t: seq<Entry>, i: nat)
    requires |s| == |t| && (forall k :: 0 <= k < |s| ==> s[k].key == t[k].key) && i < |s|
    ensures Labels(ConflictsAt(s, i)) == Labels(ConflictsAt(t, i))
  {
    FirstFollowsPaths(s, t, s[i].key, 0);
    ScanFollowsPaths(s, t, i, i - 1);
  }

  lemma {:induction false} ConcatLabels(p: seq<seq<Conflict>>, q: seq<seq<Conflict>>)
    requires |p| == |q| && forall i :: 0 <= i < |p| ==> Labels(p[i]) == Labels(q[i])
    ensures Labels(Concat(p)) == Labels(Concat(q))
  {
    if p != [] {
      var n := |p| - 1;
      ConcatLabels(p[..n], q[..n]);
      LabelsAppend(Concat(p[..n]), p[n]);
      LabelsAppend(Concat(q[..n]), q[n]);
    }
  }

  /** The verdict, the number of conflicts and their labels depend only on which paths are proposed, not on the order
      of the artifacts or of their files. */
  lemma OrderIrrelevant(a: seq<SlotArtifact>, b: seq<SlotArtifact>)
    requires multiset(Paths(a)) == multiset(Paths(b))
    ensures Labels(Conflicts(a)) == Labels(Conflicts(b))
    ensures |Conflicts(a)| == |Conflicts(b)|
  {
    var s, t := Sort(Entries(a)), Sort(Entries(b));
    SortKeysCanonical(Entries(a), Entries(b));
    assert |Keys(s)| == |Keys(t)|;
    assert forall k :: 0 <= k < |s| ==> Keys(s)[k] == Keys(t)[k];
    SortedFollowPaths(s, t);
    assert |Labels(Conflicts(a))| == |Labels(Conflicts(b))|;
  }

  lemma SortedFollowPaths(s: seq<Entry>, t: seq<Entry>)
    requires |s| == |t| && forall k :: 0 <= k < |s| ==> s[k].key == t[k].key
    ensures Labels(Concat(Reported(s))) == Labels(Concat(Reported(t)))
  {
    forall i | 0 <= i < |s| ensures Labels(ConflictsAt(s, i)) == Labels(ConflictsAt(t, i)) {
      ConflictsFollowPaths(s, t, i);
    }
    ConcatLabels(Reported(s), Reported(t));
  }

  lemma EntriesLast(a: seq<SlotArtifact>, x: SlotArtifact)
    ensures Entries(a + [x]) == Entries(a) + EntriesOf(x)
  {
    assert (a + [x])[..|a|] == a;
  }

  lemma LastApart<T>(a: seq<T>, b: seq<T>)
    requires b != []
    ensures b == b[..|b| - 1] + [b[|b| - 1]] && a + b == (a + b[..|b| - 1]) + [b[|b| - 1]]
  {
  }

  lemma {:induction false} EntriesAppend(a: seq<SlotArtifact>, b: seq<SlotArtifact>)
    ensures Entries(a + b) == Entries(a) + Entries(b)
  {
    if b == [] {
      assert a + b == a;
    } else {
      EntriesAppend(a, b[..|b| - 1]);
      EntriesOneMore(a, b[..|b| - 1], b[|b| - 1]);
      LastApart(a, b);
    }
  }

  lemma EntriesOneMore(a: seq<SlotArtifact>, c: seq<SlotArtifact>, x: SlotArtifact)
    requires Entries(a + c) == Entries(a) + Entries(c)
    ensures Entries((a + c) + [x]) == Entries(a) + Entries(c + [x])
  {
    EntriesLast(a + c, x);
    EntriesLast(c, x);
  }

  lemma EntriesRemoved(b: seq<SlotArtifact>, j: nat)
    requires j < |b|
    ensures multiset(Entries(b)) == multiset(EntriesOf(b[j])) + multiset(Entries(b[..j] + b[j + 1..]))
  {
    SplitAround(b, j);
    EntriesMiddle(b[..j], b[j], b[j + 1..]);
  }

  lemma SplitAround<T>(b: seq<T>, j: nat)
    requires j < |b|
    ensures (b[..j] + [b[j]]) + b[j + 1..] == b
  {
  }

  lemma EntriesMiddle(c: seq<SlotArtifact>, x: SlotArtifact, d: seq<SlotArtifact>)
    ensures multiset(Entries((c + [x]) + d)) == multiset(EntriesOf(x)) + multiset(Entries(c + d))
  {
    EntriesLast(c, x);
    EntriesAppend(c + [x], d);
    EntriesAppend(c, d);
    MiddleOut(Entries(c), EntriesOf(x), Entries(d));
  }

  lemma MiddleOut<T>(x: seq<T>, y: seq<T>, z: seq<T>)
    ensures multiset(x + y + z) == multiset(y) + multiset(x + z)
  {
  }

  lemma {:induction false} PermutedPaths(a: seq<SlotArtifact>, b: seq<SlotArtifact>)
    requires multiset(a) == multiset(b)
    ensures multiset(Entries(a)) == multiset(Entries(b))
  {
    SameLength(a, b);
    if a != [] {
      var j := RemoveLastFrom(a, b);
      PermutedPaths(a[..|a| - 1], b[..j] + b[j + 1..]);
      EntriesRemoved(b, j);
    }
  }

  /** In particular, permuting the artifacts changes neither the verdict nor the labels. */
  lemma PermutedArtifacts(a: seq<SlotArtifact>, b: seq<SlotArtifact>)
    requires multiset(a) == multiset(b)
    ensures Labels(Conflicts(a)) == Labels(Conflicts(b))
    ensures Conflicts(a) == [] <==> Conflicts(b) == []
  {
    PermutedPaths(a, b);
    KeysMultiset(Entries(a), Entries(b));
    OrderIrrelevant(a, b);
    assert |Labels(Conflicts(a))| == |Labels(Conflicts(b))|;
  }

  // ---- The verdict, in terms of the names as they were proposed ----

  predicate Position(artifacts: seq<SlotArtifact>, a: int, f: int) {
    0 <= a < |artifacts| && 0 <= f < |artifacts[a].proposedFiles|
  }

  function NameAt(artifacts: seq<SlotArtifact>, a: nat, f: nat): Text
    requires Position(artifacts, a, f)
  {
    artifacts[a].proposedFiles[f]
  }

  /** Two names are the same file when they are equal once each that lacks it has been given one leading slash. */
  predicate SameFile(f: Text, g: Text) {
    || f == g
    || ([SLASH] + f == g && !([SLASH] <= f))
    || ([SLASH] + g == f && !([SLASH] <= g))
  }

  lemma SameFileExactly(f: Text, g: Text)
    ensures SameFile(f, g) <==> Rooted(f) == Rooted(g)
  {
    assert Rooted(f) == if [SLASH] <= f then f else [SLASH] + f;
    assert Rooted(g) == if [SLASH] <= g then g else [SLASH] + g;
    assert forall x: Text :: ([SLASH] + x)[1..] == x;
  }

  // Where the files of artifact `a` begin among the paths.
  function Offset(artifacts: seq<SlotArtifact>, a: nat): nat
    requires a <= |artifacts|
  {
    if a == 0 then 0 else Offset(artifacts, a - 1) + |artifacts[a - 1].proposedFiles|
  }

  lemma {:induction false} OffsetIsLength(artifacts: seq<SlotArtifact>, a: nat)
    requires a <= |artifacts|
    ensures Offset(artifacts, a) == |Entries(artifacts[..a])|
    ensures Entries(artifacts[..a]) <= Entries(artifacts)
  {
    if a > 0 {
      OffsetIsLength(artifacts, a - 1);
      assert artifacts[..a][..a - 1] == artifacts[..a - 1];
    }
    assert artifacts[..a] + artifacts[a..] == artifacts;
    EntriesAppend(artifacts[..a], artifacts[a..]);
  }

  /** The file at a position is the path at the position's place, with its artifact's slot and provider. */
  lemma EntryAtPosition(artifacts: seq<SlotArtifact>, a: nat, f: nat)
    requires Position(artifacts, a, f)
    ensures var k := Offset(artifacts, a) + f;
            && k < |Entries(artifacts)| && Entries(artifacts)[k].key == Rooted(NameAt(artifacts, a, f))
            && Entries(artifacts)[k].val == Source(artifacts[a].slotId, artifacts[a].providerId)
  {
    OffsetIsLength(artifacts, a);
    OffsetIsLength(artifacts, a + 1);
    assert artifacts[..a + 1][..a] == artifacts[..a];
    assert Entries(artifacts[..a + 1]) == Entries(artifacts[..a]) + EntriesOf(artifacts[a]);
  }

  lemma {:induction false} PositionOf(artifacts: seq<SlotArtifact>, k: nat, n: nat) returns (a: nat, f: nat)
    requires n <= |artifacts| && k < Offset(artifacts, n)
    ensures Position(artifacts, a, f) && k == Offset(artifacts, a) + f
    decreases n
  {
    if k < Offset(artifacts, n - 1) {
      a, f := PositionOf(artifacts, k, n - 1);
    } else {
      a, f := n - 1, k - Offset(artifacts, n - 1);
    }
  }

  // Different positions have different places.
  lemma {:induction false} OffsetsGrow(artifacts: seq<SlotArtifact>, a: nat, b: nat)
    requires a < b <= |artifacts|
    ensures Offset(artifacts, a) + |artifacts[a].proposedFiles| <= Offset(artifacts, b)
    decreases b
  {
    if a < b - 1 {
      OffsetsGrow(artifacts, a, b - 1);
    }
  }

  ghost predicate NoFileTwice(artifacts: seq<SlotArtifact>) {
    forall a, f, b, g ::
      Position(artifacts, a, f) && Position(artifacts, b, g) && (a != b || f != g) ==>
        !SameFile(NameAt(artifacts, a, f), NameAt(artifacts, b, g))
  }

  lemma NoFileTwiceExactly(artifacts: seq<SlotArtifact>)
    ensures NoFileTwice(artifacts) <==> NoDuplicates(Paths(artifacts))
  {
    var paths := Paths(artifacts);
    if NoDuplicates(paths) {
      forall a, f, b, g | Position(artifacts, a, f) && Position(artifacts, b, g) && (a != b || f != g)
        ensures !SameFile(NameAt(artifacts, a, f), NameAt(artifacts, b, g))
      {
        DifferentPlaces(artifacts, a, f, b, g);
      }
    }
    if NoFileTwice(artifacts) {
      forall i, j | 0 <= i < j < |paths| ensures paths[i] != paths[j] {
        var a, f := PlaceOf(artifacts, i);
        var b, g := PlaceOf(artifacts, j);
        SameFileExactly(NameAt(artifacts, a, f), NameAt(artifacts, b, g));
      }
    }
  }

  lemma DifferentPlaces(artifacts: seq<SlotArtifact>, a: nat, f: nat, b: nat, g: nat)
    requires NoDuplicates(Paths(artifacts)) && Position(artifacts, a, f) && Position(artifacts, b, g) && (a != b || f != g)
    ensures !SameFile(NameAt(artifacts, a, f), NameAt(artifacts, b, g))
  {
    EntryAtPosition(artifacts, a, f);
    EntryAtPosition(artifacts, b, g);
    if a < b { OffsetsGrow(artifacts, a, b); }
    if b < a { OffsetsGrow(artifacts, b, a); }
    var i, j := Offset(artifacts, a) + f, Offset(artifacts, b) + g;
    assert Paths(artifacts)[i] != Paths(artifacts)[j];
    SameFileExactly(NameAt(artifacts, a, f), NameAt(artifacts, b, g));
  }

  lemma PlaceOf(artifacts: seq<SlotArtifact>, k: nat) returns (a: nat, f: nat)
    requires k < |Paths(artifacts)|
    ensures Position(artifacts, a, f) && k == Offset(artifacts, a) + f && Paths(artifacts)[k] == Rooted(NameAt(artifacts, a, f))
  {
    OffsetIsLength(artifacts, |artifacts|);
    assert artifacts[..|artifacts|] == artifacts;
    a, f := PositionOf(artifacts, k, |artifacts|);
    EntryAtPosition(artifacts, a, f);
  }

  /** A name lies in the directory of another, or shadows it, as their paths do. */
  ghost predicate SomeFile(artifacts: seq<SlotArtifact>, related: Text -> bool) {
    exists b, g :: Position(artifacts, b, g) && related(Rooted(NameAt(artifacts, b, g)))
  }

  ghost predicate DirectoriesShadowed(artifacts: seq<SlotArtifact>) {
    forall a, f :: Position(artifacts, a, f) && SomeFile(artifacts, q => Inside(Rooted(NameAt(artifacts, a, f)), q)) ==>
      SomeFile(artifacts, r => Shadows(Rooted(NameAt(artifacts, a, f)), r))
  }

  lemma SomeFileExactly(artifacts: seq<SlotArtifact>, related: Text -> bool)
    ensures SomeFile(artifacts, related) <==> exists i :: 0 <= i < |Paths(artifacts)| && related(Paths(artifacts)[i])
  {
    if b, g :| Position(artifacts, b, g) && related(Rooted(NameAt(artifacts, b, g))) {
      EntryAtPosition(artifacts, b, g);
      assert related(Paths(artifacts)[Offset(artifacts, b) + g]);
    }
    if i: nat :| i < |Paths(artifacts)| && related(Paths(artifacts)[i]) {
      var b, g := PlaceOf(artifacts, i);
    }
  }

  lemma DirectoriesShadowedExactly(artifacts: seq<SlotArtifact>)
    ensures DirectoriesShadowed(artifacts) <==> EveryDirectoryShadowed(Paths(artifacts))
  {
    var paths := Paths(artifacts);
    forall a, f | Position(artifacts, a, f)
      ensures SomeFile(artifacts, q => Inside(Rooted(NameAt(artifacts, a, f)), q)) <==> HasInside(paths, Rooted(NameAt(artifacts, a, f)))
      ensures SomeFile(artifacts, r => Shadows(Rooted(NameAt(artifacts, a, f)), r)) <==> Shadowed(paths, Rooted(NameAt(artifacts, a, f)))
    {
      SomeFileExactly(artifacts, q => Inside(Rooted(NameAt(artifacts, a, f)), q));
      SomeFileExactly(artifacts, r => Shadows(Rooted(NameAt(artifacts, a, f)), r));
    }
    if DirectoriesShadowed(artifacts) {
      forall k | 0 <= k < |paths| && HasInside(paths, paths[k]) ensures Shadowed(paths, paths[k]) {
        var a, f := PlaceOf(artifacts, k);
      }
    }
    if EveryDirectoryShadowed(paths) {
      forall a, f | Position(artifacts, a, f) && HasInside(paths, Rooted(NameAt(artifacts, a, f)))
        ensures Shadowed(paths, Rooted(NameAt(artifacts, a, f)))
      {
        EntryAtPosition(artifacts, a, f);
        assert paths[Offset(artifacts, a) + f] == Rooted(NameAt(artifacts, a, f));
      }
    }
  }

  /** The verdict is `clean` exactly when no file is proposed twice, in one artifact or in two, and every name that has another
      in its directory is shadowed. */
  lemma CleanOverFiles(artifacts: seq<SlotArtifact>)
    ensures Conflicts(artifacts) == [] <==> NoFileTwice(artifacts) && DirectoriesShadowed(artifacts)
  {
    CleanExactly(artifacts);
    NoFileTwiceExactly(artifacts);
    DirectoriesShadowedExactly(artifacts);
  }

  // ---- Which conflicts are reported ----

  /** What is reported of the entry at `i`: its path's first entry if that is an earlier one, and otherwise every entry whose
      directory it is in and that the scan back to it meets. */
  ghost predicate ReportedOf(s: seq<Entry>, i: nat, c: Conflict) {
    && i < |s| && c.b == s[i].val
    && (if exists m :: 0 <= m < i && s[m].key == s[i].key
        then c.path == s[i].key && exists m :: 0 <= m < i && FirstWith(s, m, s[i].key) && c.a == s[m].val
        else exists k: nat :: Reports(s, i, k) && c.path == s[i].key + OVERLAPS + s[k].key && c.a == s[k].val)
  }

  ghost predicate FirstWith(s: seq<Entry>, m: nat, path: Text) {
    m < |s| && s[m].key == path && forall l :: 0 <= l < m ==> s[l].key != path
  }

  ghost predicate Tells(s: seq<Entry>, i: nat, j: int, c: Conflict) {
    exists k: nat :: k <= j && Reports(s, i, k) && c == Conflict(s[i].key + OVERLAPS + s[k].key, s[k].val, s[i].val)
  }

  lemma TellsStep(s: seq<Entry>, i: nat, j: nat, c: Conflict)
    requires j < i < |s| && forall m :: j < m < i ==> !Stops(s[i].key, s[m].key)
    ensures Tells(s, i, j, c) <==>
              && !Stops(s[i].key, s[j].key)
              && (|| (Inside(s[j].key, s[i].key) && c == Conflict(s[i].key + OVERLAPS + s[j].key, s[j].val, s[i].val))
                  || Tells(s, i, j - 1, c))
  {
    if !Stops(s[i].key, s[j].key) && Inside(s[j].key, s[i].key) {
      assert Reports(s, i, j);
    }
    if Tells(s, i, j, c) {
      var k: nat :| k <= j && Reports(s, i, k) && c == Conflict(s[i].key + OVERLAPS + s[k].key, s[k].val, s[i].val);
      assert !Stops(s[i].key, s[j].key);
    }
  }

  lemma {:induction false} ScanBackTells(s: seq<Entry>, i: nat, j: int, c: Conflict)
    requires i < |s| && -1 <= j < i
    requires forall m :: j < m < i ==> !Stops(s[i].key, s[m].key)
    ensures c in ScanBack(s, i, j) <==> Tells(s, i, j, c)
    decreases j
  {
    if j >= 0 {
      TellsStep(s, i, j, c);
      if !Stops(s[i].key, s[j].key) {
        ScanBackTells(s, i, j - 1, c);
      }
    }
  }

  lemma ReportedOfExactly(s: seq<Entry>, i: nat, c: Conflict)
    requires i < |s|
    ensures c in ConflictsAt(s, i) <==> ReportedOf(s, i, c)
  {
    FirstAtMost(s, i);
    if First(s, s[i].key) == i {
      ScanBackTells(s, i, i - 1, c);
      TellsReported(s, i, c);
    } else {
      assert FirstWith(s, First(s, s[i].key), s[i].key);
    }
  }

  lemma TellsReported(s: seq<Entry>, i: nat, c: Conflict)
    requires i < |s| && forall m :: 0 <= m < i ==> s[m].key != s[i].key
    ensures Tells(s, i, i - 1, c) <==> ReportedOf(s, i, c)
  {
    if ReportedOf(s, i, c) {
      var k: nat :| Reports(s, i, k) && c.path == s[i].key + OVERLAPS + s[k].key && c.a == s[k].val;
      assert c == Conflict(s[i].key + OVERLAPS + s[k].key, s[k].val, s[i].val);
    }
  }

  ghost predicate ReportedOfSome(s: seq<Entry>, c: Conflict) {
    exists i: nat :: ReportedOf(s, i, c)
  }

  lemma ReportedSomewhere(s: seq<Entry>, c: Conflict)
    requires c in SortedConflicts(s)
    ensures ReportedOfSome(s, c)
  {
    ConcatContains(Reported(s), c);
    var i: nat :| i < |s| && c in Reported(s)[i];
    ReportedOfExactly(s, i, c);
  }

  lemma SomewhereReported(s: seq<Entry>, c: Conflict)
    requires ReportedOfSome(s, c)
    ensures c in SortedConflicts(s)
  {
    var i: nat :| ReportedOf(s, i, c);
    ConcatContains(Reported(s), c);
    ReportedOfExactly(s, i, c);
    assert c in Reported(s)[i];
  }

  /** Exactly these conflicts are reported, over the entries in the order of their paths. */
  lemma ReportedExactly(artifacts: seq<SlotArtifact>, c: Conflict)
    ensures c in Conflicts(artifacts) <==> ReportedOfSome(Sort(Entries(artifacts)), c)
  {
    var s := Sort(Entries(artifacts));
    if c in Conflicts(artifacts) {
      ReportedSomewhere(s, c);
    } else if ReportedOfSome(s, c) {
      SomewhereReported(s, c);
    }
  }
}
