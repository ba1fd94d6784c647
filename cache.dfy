/**
 * The freshness-gated snapshot cache of aws_poller/__main__.py: the
 * `track_results` decorator, which answers a poller method either from the
 * newest snapshot file of its data directory or by calling the method and
 * storing a non-empty answer as a new snapshot named after the current
 * instant. The clock reading and the outcome of the wrapped method are
 * parameters.
 */
module Cache {
  import opened Wrappers
  import opened PyInt
  import opened Os
  import opened Utils

  /** The freshness budget both poller methods are decorated with, in seconds. */
  const Freshness: int := 24 * 60 * 60

  /** What the wrapped poller method did when called: returned a list, or raised. */
  datatype Fetch<T> = Fetched(value: T) | Raised

  datatype Decision = Refresh | Reuse(last: int)

  /**
   * The test of track_results: call the wrapped method when forced, when the
   * directory names no instant, or when the newest instant is more than
   * `freshness` seconds behind `now`; otherwise reuse the snapshot of the
   * newest instant.
   */
  function Decide(force: bool, last: Option<int>, now: int, freshness: int): (d: Decision)
    ensures d.Reuse? ==> last == Some(d.last)
  {
    if force || last.None? || now - last.value > freshness then Refresh else Reuse(last.value)
  }

  /**
   * Without forcing, a snapshot is reused exactly when the clock is at most
   * `freshness` seconds past it: an elapsed time equal to the budget, and a
   * clock that is behind the snapshot, both reuse.
   */
  lemma ReuseWindow(last: int, now: int, freshness: int)
    ensures Decide(false, Some(last), now, freshness) == Reuse(last) <==> now <= last + freshness
    ensures Decide(false, Some(last), last + freshness, freshness) == Reuse(last)
    ensures freshness >= 0 && now <= last ==> Decide(false, Some(last), now, freshness) == Reuse(last)
  {
  }

  /** Forcing, or a directory naming no instant, always calls the wrapped method. */
  lemma RefreshCases(force: bool, last: Option<int>, now: int, freshness: int)
    ensures force ==> Decide(force, last, now, freshness) == Refresh
    ensures last.None? ==> Decide(force, last, now, freshness) == Refresh
  {
  }

  /**
   * What one call through track_results does to the data directory dir and
   * what it returns. Listing dir and reading the reused snapshot are outside
   * the decorator's `try`, so their errors propagate; an exception of the
   * wrapped method becomes the empty list; a non-empty answer is written to
   * "{now}.pkl", overwriting a file of that name. (In a valid tree every
   * directory has a file table, so the second test adds nothing.)
   */
  ghost function Track<R>(t: Tree<seq<R>>, dir: Path, freshness: int, force: bool, now: int, fetch: Fetch<seq<R>>): (Result<seq<R>, OsError>, Tree<seq<R>>)
  {
    if dir !in t.dirs || dir !in t.files then (Err(OsError(Listdir, dir)), t)
    else match Decide(force, Latest(t.Entries(dir)), now, freshness)
      case Reuse(last) => (t.Read(dir, SnapshotName(last)), t)
      case Refresh =>
        var results := if fetch.Fetched? then fetch.value else [];
        if results == [] then (Ok(results), t)
        else match t.Write(dir, SnapshotName(now), results)
          case Err(e) => (Err(e), t)
          case Ok(t1) => (Ok(results), t1)
  }

  lemma TrackKeepsValid<R>(t: Tree<seq<R>>, dir: Path, freshness: int, force: bool, now: int, fetch: Fetch<seq<R>>)
    requires t.Valid()
    ensures Track(t, dir, freshness, force, now, fetch).1.Valid()
  {
    if dir in t.dirs {
      WriteKeepsValid(t, dir, SnapshotName(now), if fetch.Fetched? then fetch.value else []);
    }
  }

  /**
   * The wrapper track_results puts around a poller method
   * (aws_poller/__main__.py:98-132), for the data directory
   * resultsDir/dataDir.
   */
  method TrackResults<R>(fs: FileSystem<seq<R>>, resultsDir: Path, dataDir: string, freshness: int, force: bool, now: int, fetch: Fetch<seq<R>>)
    returns (r: Result<seq<R>, OsError>)
    requires fs.tree.Valid()
    modifies fs
    ensures fs.tree.Valid()
    ensures (r, fs.tree) == Track(old(fs.tree), resultsDir + [dataDir], freshness, force, now, fetch)
  {
    var dir := resultsDir + [dataDir];
    var last := GetLastFileTimestamp(fs, dir);
    if last.Err? {
      return Err(last.error);
    }
    var decision := Decide(force, last.value, now, freshness);
    if decision.Refresh? {
      var results := if fetch.Fetched? then fetch.value else [];
      if results != [] {
        var written := fs.tree.Write(dir, SnapshotName(now), results);
        if written.Err? {
          return Err(written.error);
        }
        WriteKeepsValid(fs.tree, dir, SnapshotName(now), results);
        fs.tree := written.value;
      }
      return Ok(results);
    }
    r := fs.tree.Read(dir, SnapshotName(decision.last));
  }

  /**
   * On the reuse path the wrapped method's outcome does not matter, nothing
   * is written, and the answer is the stored content of "{last}.pkl", or the
   * error of opening it when there is no such file.
   */
  lemma ReuseReadsSnapshot<R>(t: Tree<seq<R>>, dir: Path, freshness: int, force: bool, now: int, fetch: Fetch<seq<R>>, other: Fetch<seq<R>>)
    requires t.Valid() && dir in t.dirs
    requires Decide(force, Latest(t.Entries(dir)), now, freshness).Reuse?
    ensures var name := SnapshotName(Decide(force, Latest(t.Entries(dir)), now, freshness).last);
            && Track(t, dir, freshness, force, now, fetch) == Track(t, dir, freshness, force, now, other)
            && Track(t, dir, freshness, force, now, fetch).1 == t
            && Track(t, dir, freshness, force, now, fetch).0 == (if name in t.files[dir] then Ok(t.files[dir][name]) else Err(OsError(Open, dir + [name])))
  {
  }

  /** A wrapped method that raises leaves the tree as it was; on the refresh path the answer is []. */
  lemma RaisedWritesNothing<R>(t: Tree<seq<R>>, dir: Path, freshness: int, force: bool, now: int)
    requires t.Valid()
    ensures Track(t, dir, freshness, force, now, Raised).1 == t
    ensures dir in t.dirs && Decide(force, Latest(t.Entries(dir)), now, freshness) == Refresh ==>
              Track(t, dir, freshness, force, now, Raised).0 == Ok([])
  {
  }

  /**
   * On the refresh path an empty answer is returned and nothing is written;
   * a non-empty answer is returned and stored as "{now}.pkl", replacing any
   * file of that name, with every other file of every directory unchanged.
   */
  lemma RefreshStores<R>(t: Tree<seq<R>>, dir: Path, freshness: int, force: bool, now: int, results: seq<R>, other: string)
    requires t.Valid() && dir in t.dirs && dir + [SnapshotName(now)] !in t.dirs
    requires Decide(force, Latest(t.Entries(dir)), now, freshness) == Refresh
    ensures var (r, t1) := Track(t, dir, freshness, force, now, Fetched(results));
            && r == Ok(results)
            && (results == [] ==> t1 == t)
            && (results != [] ==>
                  && t1.Valid()
                  && t1.Read(dir, SnapshotName(now)) == Ok(results)
                  && (other != SnapshotName(now) ==> t1.Read(dir, other) == t.Read(dir, other))
                  && t1.dirs == t.dirs
                  && forall d | d in t.files && d != dir :: t1.files[d] == t.files[d])
  {
    WriteKeepsValid(t, dir, SnapshotName(now), results);
    if results != [] {
      ReadAfterWrite(t, dir, SnapshotName(now), results, other);
    }
  }

  /** Storing "{now}.pkl" in dir adds exactly that name to the listing of dir. */
  lemma EntriesAfterWrite<R>(t: Tree<seq<R>>, dir: Path, name: string, x: seq<R>)
    requires t.Write(dir, name, x).Ok?
    ensures t.Write(dir, name, x).value.Entries(dir) == t.Entries(dir) + {name}
  {
    var t1 := t.Write(dir, name, x).value;
    assert t1.SubdirNames(dir) == t.SubdirNames(dir);
  }

  /**
   * Writing "{now}.pkl" into a directory whose newest instant is not after
   * now makes now its newest instant, with the written list under that name.
   */
  lemma WriteMakesNewest<R>(t: Tree<seq<R>>, dir: Path, now: int, results: seq<R>)
    requires t.Valid() && dir in t.dirs && dir + [SnapshotName(now)] !in t.dirs
    requires Latest(t.Entries(dir)).None? || Latest(t.Entries(dir)).value <= now
    ensures t.Write(dir, SnapshotName(now), results).Ok?
    ensures var t1 := t.Write(dir, SnapshotName(now), results).value;
            && t1.Valid() && dir in t1.dirs
            && Latest(t1.Entries(dir)) == Some(now)
            && t1.Read(dir, SnapshotName(now)) == Ok(results)
  {
    var name := SnapshotName(now);
    WriteKeepsValid(t, dir, name, results);
    EntriesAfterWrite(t, dir, name, results);
    TimestampOfSnapshotName(now);
    NewestAfterAdding(t.Entries(dir), name, now);
    ReadAfterWrite(t, dir, name, results, name);
  }

  /** Adding a name for instant now to names none of which is after now makes now the newest. */
  lemma NewestAfterAdding(names: set<string>, name: string, now: int)
    requires Timestamp(name) == Some(now)
    requires Latest(names).None? || Latest(names).value <= now
    ensures Latest(names + {name}) == Some(now)
  {
    LatestAdd(names, name);
  }

  /**
   * The cache does its job: right after a call that stored a fresh answer
   * at `now`, an unforced call at any `later` instant no more than the
   * budget past `now` reuses, and returns, exactly that answer, whatever
   * the wrapped method would do. This needs the clock not to have been
   * behind the directory's newest instant when the answer was stored.
   */
  lemma RefreshThenReuse<R>(t: Tree<seq<R>>, dir: Path, freshness: int, force: bool, now: int, results: seq<R>, later: int, fetch: Fetch<seq<R>>)
    requires t.Valid() && dir in t.dirs && dir + [SnapshotName(now)] !in t.dirs
    requires Decide(force, Latest(t.Entries(dir)), now, freshness) == Refresh
    requires results != []
    requires Latest(t.Entries(dir)).None? || Latest(t.Entries(dir)).value <= now
    requires now <= later <= now + freshness
    ensures var t1 := Track(t, dir, freshness, force, now, Fetched(results)).1;
            t1.Valid() && Track(t1, dir, freshness, false, later, fetch) == (Ok(results), t1)
  {
    WriteMakesNewest(t, dir, now, results);
    var t1 := t.Write(dir, SnapshotName(now), results).value;
    assert Track(t, dir, freshness, force, now, Fetched(results)).1 == t1;
    ReuseWindow(now, later, freshness);
    ReuseReadsSnapshot(t1, dir, freshness, false, later, fetch, fetch);
  }

  /**
   * When the clock is behind the directory's newest instant, a forced call
   * still writes its answer under "{now}.pkl", but the snapshot that later
   * unforced calls reuse stays the one of the newest instant: the write is
   * never read back by the cache.
   */
  lemma ForcedWriteBehindClockIsShadowed<R>(t: Tree<seq<R>>, dir: Path, freshness: int, now: int, results: seq<R>, later: int, fetch: Fetch<seq<R>>)
    requires t.Valid() && dir in t.dirs && dir + [SnapshotName(now)] !in t.dirs
    requires results != []
    requires Latest(t.Entries(dir)).Some? && now < Latest(t.Entries(dir)).value
    requires later <= Latest(t.Entries(dir)).value + freshness
    ensures var t1 := Track(t, dir, freshness, true, now, Fetched(results)).1;
            && t1.Valid()
            && t1.Read(dir, SnapshotName(now)) == Ok(results)
            && Track(t1, dir, freshness, false, later, fetch) ==
                 (t1.Read(dir, SnapshotName(Latest(t.Entries(dir)).value)), t1)
  {
    var name := SnapshotName(now);
    WriteKeepsValid(t, dir, name, results);
    var t1 := t.Write(dir, name, results).value;
    EntriesAfterWrite(t, dir, name, results);
    LatestAdd(t.Entries(dir), name);
    TimestampOfSnapshotName(now);
    ReadAfterWrite(t, dir, name, results, name);
  }

  /** The one-directory tree holding only "0123.pkl" with content x. */
  function LeadingZeroTree<R>(x: seq<R>): (t: Tree<seq<R>>)
    ensures t.Valid() && ["volumes"] in t.dirs
    ensures t.Entries(["volumes"]) == {"0123.pkl"}
    ensures t.files[["volumes"]] == map["0123.pkl" := x]
  {
    var dir: Path := ["volumes"];
    var t := Tree({[], dir}, map[[] := map[], dir := map["0123.pkl" := x]]);
    assert t.SubdirNames(dir) == {} by {
      forall q | q in t.dirs
        ensures |q| != |dir| + 1
      {
      }
    }
    t
  }

  /**
   * The reuse path rebuilds the file name from the instant, so it can miss
   * the file that named it: a data directory holding only "0123.pkl" names
   * the instant 123, and within the budget the cache opens "123.pkl", which
   * does not exist, and the call fails.
   */
  lemma ReuseMissesLeadingZeroName<R>(x: seq<R>)
    ensures var t := LeadingZeroTree(x);
            Track(t, ["volumes"], Freshness, false, 123 + Freshness, Fetched(x)) == (Err(OsError(Open, ["volumes", "123.pkl"])), t)
  {
    var t := LeadingZeroTree(x);
    var dir: Path := ["volumes"];
    LeadingZeroNameIsNotSnapshotName();
    LatestOfLone({"0123.pkl"}, "0123.pkl");
    assert Latest(t.Entries(dir)) == Some(123);
    assert Decide(false, Some(123), 123 + Freshness, Freshness) == Reuse(123);
    assert "123.pkl" !in t.files[dir];
    assert dir + ["123.pkl"] == ["volumes", "123.pkl"];
  }
}
