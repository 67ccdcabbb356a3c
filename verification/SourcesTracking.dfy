/** Polling a source tree for changed files, with a cached directory listing. */
module SourcesTracking {
  import opened Options

  type Path = string
  type Dir = string
  type Entry = (Dir, Path)

  /** What the outside shows to one poll: the time, the existing files with their time stamps,
      what a directory scan lists, the entries the factory wraps, and the files whose content
      no longer has the checksum their wrapper knows. */
  datatype World = World(now: int, files: map<Path, int>, trees: map<Dir, seq<Path>>,
                         wrappers: set<Entry>, rewritten: set<Path>)

  type Listing = map<Dir, seq<Path>>

  const CAPTURE_COUNTER := 100
  const RECENT := 1100

  /** File.lastModified: zero for a file that does not exist. */
  function Stamp(w: World, p: Path): int {
    if p in w.files then w.files[p] else 0
  }

  function Tree(w: World, d: Dir): seq<Path> {
    if d in w.trees then w.trees[d] else []
  }

  function Scan(dirs: seq<Dir>, w: World): Listing {
    map d | d in dirs :: Tree(w, d)
  }

  function Entries(listing: Listing): set<Entry> {
    set d, p | d in listing && p in listing[d] :: (d, p)
  }

  function Paths(entries: set<Entry>): set<Path> {
    set e | e in entries :: e.1
  }

  /** A snapshot: the time stamps of the listed files, and those that have a wrapper. */
  datatype Snapshot = Snapshot(stamps: map<Path, int>, wrapped: set<Path>)

  function Captured(entries: set<Entry>, w: World): Snapshot {
    Snapshot(map p | p in Paths(entries) :: Stamp(w, p), Paths(entries * w.wrappers))
  }

  predicate Changed(before: Snapshot, after: Snapshot, w: World, p: Path)
    requires p in after.stamps
  {
    || p !in before.stamps
    || before.stamps[p] != after.stamps[p]
    || (w.now - after.stamps[p] < RECENT && p in w.rewritten)
  }

  function Report(before: Snapshot, after: Snapshot, w: World): set<Path> {
    set p | p in after.stamps && p in after.wrapped && Changed(before, after, w, p)
  }

  // ---- one poll, as a step

  datatype Tracker = Tracker(snapshot: Snapshot, counter: nat, cache: Option<Listing>)

  predicate Scans(t: Tracker) {
    t.counter == 0 || t.cache.None?
  }

  function Listed(dirs: seq<Dir>, t: Tracker, w: World): Listing {
    if Scans(t) then Scan(dirs, w) else t.cache.value
  }

  function Reported(dirs: seq<Dir>, t: Tracker, w: World): set<Path> {
    Report(t.snapshot, Captured(Entries(Listed(dirs, t, w)), w), w)
  }

  function Poll(dirs: seq<Dir>, t: Tracker, w: World): Tracker {
    var listing := Listed(dirs, t, w);
    Tracker(Captured(Entries(listing), w), (if t.counter == 0 then CAPTURE_COUNTER else t.counter) - 1,
            if Reported(dirs, t, w) == {} then Some(listing) else None)
  }

  /** A new tracker; the shared listing may be left over from an earlier one. */
  function New(dirs: seq<Dir>, left: Option<Listing>, w: World): Tracker {
    var listing := if left.None? then Scan(dirs, w) else left.value;
    Tracker(Captured(Entries(listing), w), CAPTURE_COUNTER, Some(listing))
  }

  /** The tracker after polling each of the worlds in turn; the first one only sees its construction. */
  function After(dirs: seq<Dir>, left: Option<Listing>, worlds: seq<World>): Tracker
    requires worlds != []
  {
    var n := |worlds| - 1;
    if n == 0 then New(dirs, left, worlds[0]) else Poll(dirs, After(dirs, left, worlds[..n]), worlds[n])
  }

  /** The report of poll number n, counted from one. */
  function ReportOf(dirs: seq<Dir>, left: Option<Listing>, worlds: seq<World>, n: nat): set<Path>
    requires 0 < n < |worlds|
  {
    Reported(dirs, After(dirs, left, worlds[..n]), worlds[n])
  }

  predicate PollScans(dirs: seq<Dir>, left: Option<Listing>, worlds: seq<World>, n: nat)
    requires 0 < n < |worlds|
  {
    Scans(After(dirs, left, worlds[..n]))
  }

  lemma AfterPoll(dirs: seq<Dir>, left: Option<Listing>, worlds: seq<World>, n: nat)
    requires 0 < n < |worlds|
    ensures After(dirs, left, worlds[..n + 1]) == Poll(dirs, After(dirs, left, worlds[..n]), worlds[n])
  {
    assert worlds[..n + 1][..n] == worlds[..n];
  }

  // ---- how far apart scans are

  /** The counter before poll number n. */
  function CounterBefore(n: nat): nat
    requires n > 0
  {
    if n == 1 then CAPTURE_COUNTER else CAPTURE_COUNTER - 1 - (n - 2) % CAPTURE_COUNTER
  }

  lemma CounterStep(n: nat)
    requires n > 0
    ensures CounterBefore(n + 1) == (if CounterBefore(n) == 0 then CAPTURE_COUNTER else CounterBefore(n)) - 1
  {
  }

  lemma {:induction false} CounterIs(dirs: seq<Dir>, left: Option<Listing>, worlds: seq<World>, n: nat)
    requires 0 < n <= |worlds|
    ensures After(dirs, left, worlds[..n]).counter == CounterBefore(n)
    decreases n
  {
    hide CounterBefore;
    if n > 1 {
      hide After;
      CounterIs(dirs, left, worlds, n - 1);
      AfterPoll(dirs, left, worlds, n - 1);
      CounterStep(n - 1);
    } else {
      FirstCounter();
    }
  }

  lemma FirstCounter()
    ensures CounterBefore(1) == CAPTURE_COUNTER
  {
  }

  lemma FirstHasListing(dirs: seq<Dir>, left: Option<Listing>, worlds: seq<World>)
    requires worlds != []
    ensures After(dirs, left, worlds[..1]).cache.Some?
  {
  }

  /** A poll scans the directories exactly when the poll before it reported something or when
      a multiple of a hundred polls came before it. */
  lemma ScansExactlyWhen(dirs: seq<Dir>, left: Option<Listing>, worlds: seq<World>, n: nat)
    requires 0 < n < |worlds|
    ensures PollScans(dirs, left, worlds, n) <==>
            n > 1 && ((n - 1) % 100 == 0 || ReportOf(dirs, left, worlds, n - 1) != {})
  {
    CounterIs(dirs, left, worlds, n);
    hide Captured, Entries, Scan, Report;
    if n > 1 {
      hide After;
      AfterPoll(dirs, left, worlds, n - 1);
    } else {
      FirstHasListing(dirs, left, worlds);
    }
  }

  /** Of any hundred and one polls in a row one scans; after the first poll, of any hundred. */
  lemma ScansAreNear(dirs: seq<Dir>, left: Option<Listing>, worlds: seq<World>, n: nat) returns (scan: nat)
    requires 0 < n && n + (if n == 1 then 100 else 99) < |worlds|
    ensures n <= scan <= n + (if n == 1 then 100 else 99)
    ensures LastScan(dirs, left, worlds, scan) == scan
  {
    hide ReportOf;
    var rest := (n - 1) % 100;
    scan := if n > 1 && rest == 0 then n else n + 100 - rest;
  }

  // ---- what is reported, and when

  /** While the listing is cached the snapshot has exactly the cached files. */
  lemma CacheIsCaptured(dirs: seq<Dir>, left: Option<Listing>, worlds: seq<World>)
    requires worlds != []
    ensures var t := After(dirs, left, worlds);
            t.cache.Some? ==> t.snapshot == Captured(Entries(t.cache.value), worlds[|worlds| - 1])
  {
  }

  /** The listing that poll number n looks at, or the construction for zero. */
  function ListingOf(dirs: seq<Dir>, left: Option<Listing>, worlds: seq<World>, n: nat): Listing
    requires n < |worlds|
  {
    if n > 0 then Listed(dirs, After(dirs, left, worlds[..n]), worlds[n])
    else if left.None? then Scan(dirs, worlds[0])
    else left.value
  }

  /** The last poll, up to number n, that has scanned the directories, going by the reports; the
      construction is number 0 and counts unless there was a listing left over. */
  ghost function LastScan(dirs: seq<Dir>, left: Option<Listing>, worlds: seq<World>, n: nat): (scan: int)
    requires n < |worlds|
    ensures -1 <= scan <= n && (scan == -1 ==> left.Some?)
  {
    if n == 0 then (if left.None? then 0 else -1)
    else if n > 1 && ((n - 1) % 100 == 0 || ReportOf(dirs, left, worlds, n - 1) != {}) then n
    else LastScan(dirs, left, worlds, n - 1)
  }

  /** Poll number n looks at a file of a directory: it was listed there when the last scan was made. */
  ghost predicate LooksAt(dirs: seq<Dir>, left: Option<Listing>, worlds: seq<World>, n: nat, d: Dir, p: Path)
    requires n < |worlds|
  {
    var scan := LastScan(dirs, left, worlds, n);
    if scan == -1 then d in left.value && p in left.value[d]
    else d in dirs && d in worlds[scan].trees && p in worlds[scan].trees[d]
  }

  ghost predicate LooksAtFile(dirs: seq<Dir>, left: Option<Listing>, worlds: seq<World>, n: nat, p: Path)
    requires n < |worlds|
  {
    exists d :: LooksAt(dirs, left, worlds, n, d, p)
  }

  lemma ListingStays(dirs: seq<Dir>, left: Option<Listing>, worlds: seq<World>, n: nat)
    requires 0 < n < |worlds| && !PollScans(dirs, left, worlds, n)
    ensures ListingOf(dirs, left, worlds, n) == ListingOf(dirs, left, worlds, n - 1)
  {
    hide Captured, Entries, Report, Scan;
    if n > 1 { AfterPoll(dirs, left, worlds, n - 1); } else { assert worlds[..1][0] == worlds[0]; }
  }

  lemma {:induction false} LooksAtTheListing(dirs: seq<Dir>, left: Option<Listing>, worlds: seq<World>, n: nat,
                                             d: Dir, p: Path)
    requires n < |worlds|
    ensures LooksAt(dirs, left, worlds, n, d, p) <==>
            (d, p) in Entries(ListingOf(dirs, left, worlds, n))
    decreases n
  {
    hide After, Report, Captured;
    if n > 0 {
      ScansExactlyWhen(dirs, left, worlds, n);
      if !PollScans(dirs, left, worlds, n) {
        ListingStays(dirs, left, worlds, n);
        hide Listed, ListingOf;
        LooksAtTheListing(dirs, left, worlds, n - 1, d, p);
      }
    }
  }

  ghost predicate ListedAndWrapped(dirs: seq<Dir>, w: World, p: Path) {
    exists d :: d in dirs && d in w.trees && p in w.trees[d] && (d, p) in w.wrappers
  }

  /** The report of a poll in terms of what is outside: for a file that it looks at and that has a
      wrapper, being looked at for the first time, having another time than at the poll before (a
      missing file has the time zero), or being recent and rewritten. */
  lemma ReportIsExact(dirs: seq<Dir>, left: Option<Listing>, worlds: seq<World>, n: nat, p: Path)
    requires 0 < n < |worlds|
    ensures var was := if p in worlds[n - 1].files then worlds[n - 1].files[p] else 0;
            var stamp := if p in worlds[n].files then worlds[n].files[p] else 0;
            p in ReportOf(dirs, left, worlds, n) <==>
              && (exists d :: LooksAt(dirs, left, worlds, n, d, p) && (d, p) in worlds[n].wrappers)
              && (!LooksAtFile(dirs, left, worlds, n - 1, p)
                  || was != stamp
                  || (worlds[n].now - stamp < 1100 && p in worlds[n].rewritten))
  {
    hide After, LooksAt, Listed, ListingOf, Entries, Report, Captured, ReportOf;
    SnapshotOfSeen(dirs, left, worlds, n - 1);
    ReportedOf(dirs, left, worlds, n);
    var before, now := Entries(ListingOf(dirs, left, worlds, n - 1)), Entries(ListingOf(dirs, left, worlds, n));
    forall d ensures LooksAt(dirs, left, worlds, n, d, p) <==> (d, p) in now {
      LooksAtTheListing(dirs, left, worlds, n, d, p);
    }
    LooksAtSome(dirs, left, worlds, n - 1, p);
    InReport(before, worlds[n - 1], now, worlds[n], p);
    assert (exists d :: LooksAt(dirs, left, worlds, n, d, p) && (d, p) in worlds[n].wrappers) <==>
           exists d :: (d, p) in now && (d, p) in worlds[n].wrappers;
  }

  lemma LooksAtSome(dirs: seq<Dir>, left: Option<Listing>, worlds: seq<World>, n: nat, p: Path)
    requires n < |worlds|
    ensures LooksAtFile(dirs, left, worlds, n, p) <==> exists d :: (d, p) in Entries(ListingOf(dirs, left, worlds, n))
  {
    hide LooksAt, ListingOf, Entries;
    forall d ensures LooksAt(dirs, left, worlds, n, d, p) <==> (d, p) in Entries(ListingOf(dirs, left, worlds, n)) {
      LooksAtTheListing(dirs, left, worlds, n, d, p);
    }
  }

  lemma InReport(before: set<Entry>, v: World, now: set<Entry>, w: World, p: Path)
    ensures var was := if p in v.files then v.files[p] else 0;
            var stamp := if p in w.files then w.files[p] else 0;
            p in Report(Captured(before, v), Captured(now, w), w) <==>
              && (exists d :: (d, p) in now && (d, p) in w.wrappers)
              && (!(exists d :: (d, p) in before) || was != stamp || (w.now - stamp < 1100 && p in w.rewritten))
  {
    PathsOf(now, p);
    PathsOf(before, p);
    PathsOf(now * w.wrappers, p);
    hide Paths;
    assert p in Paths(now * w.wrappers) ==> p in Paths(now);
  }

  lemma PathsOf(entries: set<Entry>, p: Path)
    ensures p in Paths(entries) <==> exists d :: (d, p) in entries
  {
    if p in Paths(entries) {
      var e :| e in entries && e.1 == p;
      assert (e.0, p) in entries;
    }
  }

  lemma ReportedOf(dirs: seq<Dir>, left: Option<Listing>, worlds: seq<World>, n: nat)
    requires 0 < n < |worlds|
    ensures ReportOf(dirs, left, worlds, n) ==
            Report(After(dirs, left, worlds[..n]).snapshot,
                   Captured(Entries(ListingOf(dirs, left, worlds, n)), worlds[n]), worlds[n])
  {
  }

  lemma SnapshotOfSeen(dirs: seq<Dir>, left: Option<Listing>, worlds: seq<World>, n: nat)
    requires n < |worlds|
    ensures After(dirs, left, worlds[..n + 1]).snapshot ==
            Captured(Entries(ListingOf(dirs, left, worlds, n)), worlds[n])
  {
    hide Captured, Entries, Report;
    if n == 0 { assert worlds[..1][0] == worlds[0]; } else { AfterPoll(dirs, left, worlds, n); }
  }

  /** A file that is there, with a wrapper, for all the polls up to the next scan is reported by one of them. */
  lemma {:induction false} LastingFileIsReported(dirs: seq<Dir>, left: Option<Listing>, worlds: seq<World>,
                                                 n: nat, scan: nat, p: Path)
    returns (at: nat)
    requires 0 < n <= scan < |worlds| && LastScan(dirs, left, worlds, scan) == scan
    requires !LooksAtFile(dirs, left, worlds, n - 1, p)
    requires forall k :: n <= k <= scan ==> ListedAndWrapped(dirs, worlds[k], p)
    ensures n <= at <= scan && p in ReportOf(dirs, left, worlds, at)
    decreases scan - n
  {
    hide After, Reported;
    if LastScan(dirs, left, worlds, n) == n {
      at := n;
      ReportIsExact(dirs, left, worlds, n, p);
      assert ListedAndWrapped(dirs, worlds[n], p);
      var d :| d in dirs && d in worlds[n].trees && p in worlds[n].trees[d] && (d, p) in worlds[n].wrappers;
      assert LooksAt(dirs, left, worlds, n, d, p);
    } else {
      assert LastScan(dirs, left, worlds, n) == LastScan(dirs, left, worlds, n - 1);
      assert forall d :: LooksAt(dirs, left, worlds, n, d, p) ==> LooksAt(dirs, left, worlds, n - 1, d, p);
      hide LooksAt, LastScan, ListedAndWrapped;
      at := LastingFileIsReported(dirs, left, worlds, n + 1, scan, p);
    }
  }

  /** A lasting new file is reported within a hundred and one polls. */
  lemma NewFileIsReported(dirs: seq<Dir>, left: Option<Listing>, worlds: seq<World>, n: nat, p: Path)
    returns (at: nat)
    requires 0 < n && n + 100 < |worlds|
    requires !LooksAtFile(dirs, left, worlds, n - 1, p)
    requires forall k :: n <= k <= n + 100 ==> ListedAndWrapped(dirs, worlds[k], p)
    ensures n <= at <= n + 100 && p in ReportOf(dirs, left, worlds, at)
  {
    hide After, Scans, ListedAndWrapped, Reported, LooksAt, LastScan;
    var scan := ScansAreNear(dirs, left, worlds, n);
    at := LastingFileIsReported(dirs, left, worlds, n, scan, p);
  }

  /** A wrapped file that disappears is reported exactly when the poll that finds out does not scan. */
  lemma DeletionIsReportedUnlessScanned(dirs: seq<Dir>, left: Option<Listing>, worlds: seq<World>, n: nat, p: Path)
    requires 0 < n < |worlds|
    requires p in worlds[n - 1].files && worlds[n - 1].files[p] != 0 && p !in worlds[n].files
    requires LooksAtFile(dirs, left, worlds, n - 1, p)
    requires forall d :: d in dirs && d in worlds[n].trees ==> p !in worlds[n].trees[d]
    requires forall d :: LooksAt(dirs, left, worlds, n, d, p) ==> (d, p) in worlds[n].wrappers
    ensures p in ReportOf(dirs, left, worlds, n) <==> LastScan(dirs, left, worlds, n) != n
  {
    ReportIsExact(dirs, left, worlds, n, p);
    hide After, Reported;
    var d :| LooksAt(dirs, left, worlds, n - 1, d, p);
    assert LastScan(dirs, left, worlds, n) != n ==> LooksAt(dirs, left, worlds, n, d, p);
    assert LastScan(dirs, left, worlds, n) == n ==> !exists c :: LooksAt(dirs, left, worlds, n, c, p);
  }

  // ---- the cached form against one that lists the directories at every poll

  function NaiveReport(dirs: seq<Dir>, before: World, w: World): set<Path> {
    Report(Captured(Entries(Scan(dirs, before)), before), Captured(Entries(Scan(dirs, w)), w), w)
  }

  ghost predicate SameTrees(dirs: seq<Dir>, a: World, b: World) {
    forall d :: d in dirs ==> (d in a.trees <==> d in b.trees) && (d in a.trees ==> a.trees[d] == b.trees[d])
  }

  lemma {:induction false} ListingIsCurrent(dirs: seq<Dir>, worlds: seq<World>, n: nat)
    requires 0 < n <= |worlds| && forall k :: 0 <= k < n ==> SameTrees(dirs, worlds[k], worlds[0])
    ensures After(dirs, None, worlds[..n]).snapshot == Captured(Entries(Scan(dirs, worlds[0])), worlds[n - 1])
    ensures var t := After(dirs, None, worlds[..n]); t.cache.Some? ==> t.cache.value == Scan(dirs, worlds[0])
    decreases n
  {
    hide Captured, Entries, Report;
    if n == 1 {
      assert worlds[..1][0] == worlds[0];
    } else {
      ListingIsCurrent(dirs, worlds, n - 1);
      AfterPoll(dirs, None, worlds, n - 1);
      assert SameTrees(dirs, worlds[n - 1], worlds[0]);
      assert Scan(dirs, worlds[n - 1]) == Scan(dirs, worlds[0]);
    }
  }

  /** As long as no file comes or goes, every poll reports what a tracker without the cache would. */
  lemma CacheChangesNothing(dirs: seq<Dir>, worlds: seq<World>, n: nat)
    requires 0 < n < |worlds| && forall k :: 0 <= k <= n ==> SameTrees(dirs, worlds[k], worlds[0])
    ensures ReportOf(dirs, None, worlds, n) == NaiveReport(dirs, worlds[n - 1], worlds[n])
  {
    hide Captured, Entries, Report, After;
    ListingIsCurrent(dirs, worlds, n);
    assert SameTrees(dirs, worlds[n], worlds[0]) && SameTrees(dirs, worlds[n - 1], worlds[0]);
    assert Scan(dirs, worlds[n]) == Scan(dirs, worlds[0]) == Scan(dirs, worlds[n - 1]);
  }

  // ---- the classes

  /** The static listing that all snapshots share. */
  class FilesTree {
    var filesMap: Option<Listing>

    constructor (left: Option<Listing>)
      ensures filesMap == left
    {
      filesMap := left;
    }

    method ResetFilesTree()
      modifies this
      ensures filesMap == None
    {
      filesMap := None;
    }
  }

  lemma CapturedGrows(entries: set<Entry>, e: Entry, w: World)
    ensures var s := Captured(entries, w);
            Captured(entries + {e}, w) ==
            Snapshot(s.stamps[e.1 := Stamp(w, e.1)], if e in w.wrappers then s.wrapped + {e.1} else s.wrapped)
  {
    assert Paths(entries + {e}) == Paths(entries) + {e.1};
    var more := (entries + {e}) * w.wrappers;
    if e in w.wrappers {
      assert more == entries * w.wrappers + {e};
      assert Paths(more) == Paths(entries * w.wrappers) + {e.1};
    } else {
      assert more == entries * w.wrappers;
    }
  }

  lemma ScanGrows(dirs: seq<Dir>, i: nat, w: World)
    requires i < |dirs|
    ensures Scan(dirs[..i + 1], w) == Scan(dirs[..i], w)[dirs[i] := Tree(w, dirs[i])]
    ensures Entries(Scan(dirs[..i + 1], w)) == Entries(Scan(dirs[..i], w)) + Entries(map[dirs[i] := Tree(w, dirs[i])])
  {
    assert dirs[..i + 1] == dirs[..i] + [dirs[i]];
  }

  class SourcesState {
    var state: map<Path, int>
    var pathToWrapper: set<Path>

    ghost predicate Captures(entries: set<Entry>, w: World)
      reads this
    {
      Snapshot(state, pathToWrapper) == Captured(entries, w)
    }

    constructor (ghost w: World)
      ensures Captures({}, w)
    {
      state, pathToWrapper := map[], {};
    }

    method AddFile(file: Path, baseDir: Dir, w: World, ghost before: set<Entry>)
      requires Captures(before, w)
      modifies this
      ensures Captures(before + {(baseDir, file)}, w)
    {
      CapturedGrows(before, (baseDir, file), w);
      state := state[file := Stamp(w, file)];
      if (baseDir, file) in w.wrappers {
        pathToWrapper := pathToWrapper + {file};
      }
    }

    method AddFiles(files: seq<Path>, baseDir: Dir, w: World, ghost before: set<Entry>)
      requires Captures(before, w)
      modifies this
      ensures Captures(before + Entries(map[baseDir := files]), w)
    {
      hide Captured;
      ghost var added: set<Entry> := {};
      var i := 0;
      assert before + added == before;
      while i < |files|
        invariant 0 <= i <= |files| && added == Entries(map[baseDir := files[..i]])
        invariant Captures(before + added, w)
      {
        AddFile(files[i], baseDir, w, before + added);
        assert before + added + {(baseDir, files[i])} == before + (added + {(baseDir, files[i])});
        added := added + {(baseDir, files[i])};
        i := i + 1;
      }
      assert files[..i] == files;
    }

    /** A snapshot of the cached listing, which is filled by a scan when there is none. */
    static method Capture(dirs: seq<Dir>, tree: FilesTree, w: World) returns (s: SourcesState)
      modifies tree
      ensures fresh(s)
      ensures tree.filesMap == Some(if old(tree.filesMap).None? then Scan(dirs, w) else old(tree.filesMap).value)
      ensures s.Captures(Entries(tree.filesMap.value), w)
    {
      s := new SourcesState(w);
      if tree.filesMap.None? {
        s.AddScanned(dirs, tree, w);
      } else {
        s.AddCached(tree.filesMap.value, w);
      }
    }

    method AddScanned(dirs: seq<Dir>, tree: FilesTree, w: World)
      requires Captures({}, w)
      modifies this, tree
      ensures tree.filesMap == Some(Scan(dirs, w)) && Captures(Entries(Scan(dirs, w)), w)
    {
      hide Captured;
      tree.filesMap := Some(map[]);
      assert Entries(map[]) == {};
      var i := 0;
      while i < |dirs|
        invariant 0 <= i <= |dirs| && tree.filesMap == Some(Scan(dirs[..i], w))
        invariant Captures(Entries(Scan(dirs[..i], w)), w)
      {
        var d := dirs[i];
        tree.filesMap := Some(tree.filesMap.value[d := Tree(w, d)]);
        AddFiles(tree.filesMap.value[d], d, w, Entries(Scan(dirs[..i], w)));
        ScanGrows(dirs, i, w);
        i := i + 1;
      }
      assert dirs[..i] == dirs;
    }

    method AddCached(listing: Listing, w: World)
      requires Captures({}, w)
      modifies this
      ensures Captures(Entries(listing), w)
    {
      hide Captured;
      var rest := listing.Keys;
      ghost var done: set<Entry> := {};
      while rest != {}
        invariant rest <= listing.Keys
        invariant done == set e | e in Entries(listing) && e.0 !in rest
        invariant Captures(done, w)
      {
        var d :| d in rest;
        AddFiles(listing[d], d, w, done);
        done := done + Entries(map[d := listing[d]]);
        rest := rest - {d};
      }
      assert done == Entries(listing);
    }

    method GetChangedFiles(oldState: SourcesState, tree: FilesTree, w: World) returns (changedFiles: set<Path>)
      modifies tree
      ensures var before := Snapshot(oldState.state, oldState.pathToWrapper);
              changedFiles == Report(before, Snapshot(state, pathToWrapper), w)
      ensures tree.filesMap == if changedFiles == {} then old(tree.filesMap) else None
    {
      ghost var before, after := Snapshot(oldState.state, oldState.pathToWrapper), Snapshot(state, pathToWrapper);
      changedFiles := {};
      var rest := state.Keys;
      while rest != {}
        invariant rest <= state.Keys && tree.filesMap == old(tree.filesMap)
        invariant changedFiles == set p | p in Report(before, after, w) && p !in rest
      {
        var p :| p in rest;
        var newTimestamp := state[p];
        if p in oldState.state {
          var oldTimestamp := oldState.state[p];
          if newTimestamp != oldTimestamp {
            changedFiles := AddToChanged(changedFiles, p);
          } else if w.now - newTimestamp < RECENT {
            if p in w.rewritten {
              changedFiles := AddToChanged(changedFiles, p);
            }
          }
        } else {
          changedFiles := AddToChanged(changedFiles, p);
        }
        rest := rest - {p};
      }
      if changedFiles != {} {
        tree.ResetFilesTree();
      }
    }

    method AddToChanged(changedFiles: set<Path>, p: Path) returns (more: set<Path>)
      ensures more == if p in pathToWrapper then changedFiles + {p} else changedFiles
    {
      more := if p in pathToWrapper then changedFiles + {p} else changedFiles;
    }
  }

  class SourcesTracker {
    const sourceDirs: seq<Dir>
    const tree: FilesTree
    var state: SourcesState
    var counterForCapture: nat

    ghost function Value(): Tracker
      reads this, state, tree
    {
      Tracker(Snapshot(state.state, state.pathToWrapper), counterForCapture, tree.filesMap)
    }

    constructor (sourceDirs: seq<Dir>, tree: FilesTree, w: World)
      modifies tree
      ensures this.sourceDirs == sourceDirs && this.tree == tree && fresh(state)
      ensures Value() == New(sourceDirs, old(tree.filesMap), w)
    {
      this.sourceDirs, this.tree, counterForCapture := sourceDirs, tree, CAPTURE_COUNTER;
      var captured := SourcesState.Capture(sourceDirs, tree, w);
      state := captured;
    }

    /** One poll. */
    method GetChangedFiles(w: World) returns (changedFiles: set<Path>)
      modifies this, tree
      ensures fresh(state)
      ensures changedFiles == Reported(sourceDirs, old(Value()), w)
      ensures Value() == Poll(sourceDirs, old(Value()), w)
    {
      hide Captured, Report, Entries, Scan;
      var oldState := state;
      if counterForCapture == 0 {
        counterForCapture := CAPTURE_COUNTER;
        tree.ResetFilesTree();
      }
      counterForCapture := counterForCapture - 1;
      state := SourcesState.Capture(sourceDirs, tree, w);
      changedFiles := state.GetChangedFiles(oldState, tree, w);
    }

    /** Any number of polls. */
    static method Run(dirs: seq<Dir>, left: Option<Listing>, worlds: seq<World>) returns (reports: seq<set<Path>>)
      requires worlds != []
      ensures |reports| == |worlds| - 1
      ensures forall n :: 0 < n < |worlds| ==> reports[n - 1] == ReportOf(dirs, left, worlds, n)
    {
      hide Captured, Report, Entries, Scan, Poll, New, Reported;
      var tree := new FilesTree(left);
      var tracker := new SourcesTracker(dirs, tree, worlds[0]);
      reports := [];
      var k := 1;
      FirstIsNew(dirs, left, worlds);
      while k < |worlds|
        invariant 1 <= k <= |worlds| && |reports| == k - 1
        invariant tracker.sourceDirs == dirs && tracker.tree == tree && fresh(tracker) && fresh(tree)
        invariant tracker.Value() == After(dirs, left, worlds[..k])
        invariant forall n :: 0 < n < k ==> reports[n - 1] == ReportOf(dirs, left, worlds, n)
      {
        var report := tracker.GetChangedFiles(worlds[k]);
        AfterPoll(dirs, left, worlds, k);
        reports := reports + [report];
        k := k + 1;
      }
    }
  }

  lemma FirstIsNew(dirs: seq<Dir>, left: Option<Listing>, worlds: seq<World>)
    requires worlds != []
    ensures After(dirs, left, worlds[..1]) == New(dirs, left, worlds[0])
  {
  }
}
