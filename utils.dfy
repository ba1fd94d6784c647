/**
 * The snapshot-directory utilities of pollers/utils.py (volumapper/utils.py
 * is the same file): creating the results tree, finding the newest snapshot
 * instant in a data directory, and pruning every data directory down to its
 * newest snapshot.
 */
module Utils {
  import opened Wrappers
  import opened PyInt
  import opened Os

  /** DEFAULT_ROOT_RESULTS_DIR. */
  const DefaultRootResultsDir: Path := ["results"]

  // ---------------------------------------------------------------------------
  // setup_dir / setup_env

  /** The directories `setup_dir(path, *subs)` makes sure of: path and path/sub for each sub. */
  function Targets(path: Path, subs: seq<string>): set<Path> {
    {path} + set s | s in subs :: path + [s]
  }

  function Missing<P>(t: Tree<P>, targets: set<Path>): set<Path> {
    set q | q in targets && !t.Exists(q)
  }

  /**
   * What `setup_dir(path, *subs)` does to the tree. It raises when path is
   * missing and has no parent directory to be made in, or when path is a file
   * and there is a sub-directory to make inside it; in both cases it raises
   * before it changed anything. Otherwise it makes exactly the missing targets.
   */
  ghost function SetupDirOutcome<P>(t: Tree<P>, path: Path, subs: seq<string>): (Result<(), OsError>, Tree<P>) {
    if !t.Exists(path) && (path == [] || !t.IsDir(Parent(path))) then (Err(OsError(Mkdir, path)), t)
    else if t.IsFile(path) && |subs| > 0 then (Err(OsError(Mkdir, path + [subs[0]])), t)
    else (Ok(()), t.WithDirs(Missing(t, Targets(path, subs))))
  }

  lemma WithDirsUnion<P>(t: Tree<P>, a: set<Path>, b: set<Path>)
    ensures t.WithDirs(a).WithDirs(b) == t.WithDirs(a + b)
  {
    var l := t.WithDirs(a).WithDirs(b);
    var r := t.WithDirs(a + b);
    assert l.dirs == r.dirs;
    assert l.files.Keys == r.files.Keys;
    forall q | q in l.files
      ensures l.files[q] == r.files[q]
    {
      if q in a + b {
        assert l.files[q] == map[] == r.files[q];
      } else {
        assert l.files[q] == t.files[q] == r.files[q];
      }
    }
    assert l.files == r.files;
  }

  lemma ExistsAfterWithDirs<P>(t: Tree<P>, a: set<Path>, q: Path)
    requires a !! t.files.Keys
    ensures t.WithDirs(a).Exists(q) <==> t.Exists(q) || q in a
  {
    if q != [] && Parent(q) in a {
      assert t.WithDirs(a).files[Parent(q)] == map[];
    }
  }

  lemma WithDirsThenMore<P>(t: Tree<P>, x: set<Path>, y: set<Path>)
    requires t.files.Keys == t.dirs
    ensures var u := t.WithDirs(Missing(t, x));
            u.WithDirs(Missing(u, y)) == t.WithDirs(Missing(t, x + y))
  {
    var m := Missing(t, x);
    var u := t.WithDirs(m);
    forall q | q in y
      ensures u.Exists(q) <==> t.Exists(q) || q in m
    {
      ExistsAfterWithDirs(t, m, q);
    }
    assert m + Missing(u, y) == Missing(t, x + y);
    WithDirsUnion(t, m, Missing(u, y));
  }

  lemma PathMade<P>(t0: Tree<P>, path: Path, subs: seq<string>)
    requires t0.Valid() && !t0.Exists(path)
    ensures t0.MkDir(path).Err? ==> SetupDirOutcome(t0, path, subs) == (Err(t0.MkDir(path).error), t0)
    ensures t0.MkDir(path).Ok? ==> t0.MkDir(path).value == t0.WithDirs(Missing(t0, Targets(path, [])))
  {
    assert Targets(path, []) == {path};
    assert Missing(t0, {path}) == {path};
  }

  lemma PathPresent<P>(t0: Tree<P>, path: Path)
    requires t0.Exists(path)
    ensures t0 == t0.WithDirs(Missing(t0, Targets(path, [])))
  {
    assert Targets(path, []) == {path};
    assert Missing(t0, {path}) == {};
    assert t0.WithDirs({}) == t0;
  }

  lemma SetupDirDone<P>(t0: Tree<P>, t1: Tree<P>, path: Path, subs: seq<string>)
    requires t0.Valid()
    requires t0.Exists(path) || (path != [] && t0.IsDir(Parent(path)))
    requires t1 == t0.WithDirs(Missing(t0, Targets(path, [])))
    requires |subs| > 0 ==> t1.IsDir(path)
    ensures SetupDirOutcome(t0, path, subs) == (Ok(()), t0.WithDirs(Missing(t0, Targets(path, subs[..|subs|]))))
  {
    assert subs[..|subs|] == subs;
    assert Targets(path, []) == {path};
    if t0.IsFile(path) && |subs| > 0 {
      assert false;
    }
  }

  lemma SubDirFails<P>(t0: Tree<P>, t1: Tree<P>, path: Path, subs: seq<string>, i: nat, before: Tree<P>)
    requires t0.Valid() && i < |subs|
    requires t1 == t0.WithDirs(Missing(t0, Targets(path, [])))
    requires t0.Exists(path) || (path != [] && t0.IsDir(Parent(path)))
    requires i > 0 ==> t1.IsDir(path)
    requires before == t0.WithDirs(Missing(t0, Targets(path, subs[..i])))
    requires SetupDirOutcome(before, path + [subs[i]], []).0.Err?
    ensures i == 0 && t0.IsFile(path)
    ensures SetupDirOutcome(t0, path, subs) == (SetupDirOutcome(before, path + [subs[i]], []).0, before)
  {
    assert Targets(path, []) == {path};
    if i > 0 {
      assert false;
    }
    assert subs[..0] == [];
    if !t0.Exists(path) {
      assert false;
    }
    if t0.IsDir(path) {
      assert false;
    }
    assert Missing(t0, {path}) == {};
    assert t0.WithDirs({}) == t0;
  }

  lemma SubDirMade<P>(t0: Tree<P>, path: Path, subs: seq<string>, i: nat, before: Tree<P>, after: Tree<P>)
    requires t0.Valid() && i < |subs|
    requires before == t0.WithDirs(Missing(t0, Targets(path, subs[..i])))
    requires (Ok(()), after) == SetupDirOutcome(before, path + [subs[i]], [])
    ensures after == t0.WithDirs(Missing(t0, Targets(path, subs[..i + 1])))
  {
    assert Targets(path + [subs[i]], []) == {path + [subs[i]]};
    WithDirsThenMore(t0, Targets(path, subs[..i]), {path + [subs[i]]});
    assert Targets(path, subs[..i + 1]) == Targets(path, subs[..i]) + {path + [subs[i]]};
  }

  /** A sub-directory made under path means path is a directory after its own step. */
  lemma SubDirMeansDir<P>(t0: Tree<P>, t1: Tree<P>, path: Path, subs: seq<string>, i: nat, before: Tree<P>)
    requires before.Valid() && i < |subs|
    requires t1.dirs == t0.dirs + Missing(t0, Targets(path, []))
    requires before.dirs == t0.dirs + Missing(t0, Targets(path, subs[..i]))
    requires SetupDirOutcome(before, path + [subs[i]], []).0.Ok?
    ensures t1.IsDir(path)
  {
    var q := path + [subs[i]];
    assert Parent(q) == path;
    assert path in before.dirs;
    if path !in t0.dirs {
      assert path in Missing(t0, Targets(path, subs[..i]));
      assert path in Missing(t0, Targets(path, []));
    }
  }

  /** setup_dir (pollers/utils.py:29-42): makes path and then each path/sub if missing. */
  method SetupDir<P>(fs: FileSystem<P>, path: Path, subs: seq<string>) returns (r: Result<(), OsError>)
    requires fs.tree.Valid()
    modifies fs
    ensures fs.tree.Valid()
    ensures (r, fs.tree) == SetupDirOutcome(old(fs.tree), path, subs)
    decreases |subs|, 1
  {
    ghost var t0 := fs.tree;
    if !fs.tree.Exists(path) {
      var made := fs.tree.MkDir(path);
      MkDirKeepsValid(fs.tree, path);
      PathMade(t0, path, subs);
      if made.Err? {
        return Err(made.error);
      }
      fs.tree := made.value;
    } else {
      PathPresent(t0, path);
    }
    r := SetupSubDirs(fs, path, subs, t0);
  }

  /** The loop of setup_dir over its sub-directories, once path itself is in place (pollers/utils.py:41-42). */
  method SetupSubDirs<P>(fs: FileSystem<P>, path: Path, subs: seq<string>, ghost t0: Tree<P>) returns (r: Result<(), OsError>)
    requires t0.Valid() && fs.tree.Valid()
    requires t0.Exists(path) || (path != [] && t0.IsDir(Parent(path)))
    requires fs.tree == t0.WithDirs(Missing(t0, Targets(path, [])))
    modifies fs
    ensures fs.tree.Valid()
    ensures (r, fs.tree) == SetupDirOutcome(t0, path, subs)
    decreases |subs|, 0
  {
    ghost var t1 := fs.tree;
    for i := 0 to |subs|
      invariant fs.tree.Valid()
      invariant i > 0 ==> t1.IsDir(path)
      invariant fs.tree == t0.WithDirs(Missing(t0, Targets(path, subs[..i])))
    {
      ghost var before := fs.tree;
      var sub := SetupDir(fs, path + [subs[i]], []);
      if sub.Err? {
        SubDirFails(t0, t1, path, subs, i, before);
        return sub;
      }
      SubDirMeansDir(t0, t1, path, subs, i, before);
      SubDirMade(t0, path, subs, i, before, fs.tree);
    }
    SetupDirDone(t0, t1, path, subs);
    return Ok(());
  }

  /** Once setup_dir succeeded, calling it again changes nothing. */
  lemma SetupDirIdempotent<P>(t: Tree<P>, path: Path, subs: seq<string>)
    requires t.Valid()
    requires SetupDirOutcome(t, path, subs).0.Ok?
    ensures var u := SetupDirOutcome(t, path, subs).1;
            SetupDirOutcome(u, path, subs) == (Ok(()), u)
  {
    var m := Missing(t, Targets(path, subs));
    var u := t.WithDirs(m);
    assert m !! t.files.Keys;
    forall q | q in Targets(path, subs)
      ensures u.Exists(q)
    {
      ExistsAfterWithDirs(t, m, q);
    }
    assert Missing(u, Targets(path, subs)) == {};
    assert u.WithDirs({}) == u;
  }

  /** setup_env (pollers/utils.py:45-57): the root (by default "results") and root/ident. */
  method SetupEnv<P>(fs: FileSystem<P>, ident: string, resultsDir: Option<Path>) returns (r: Result<(), OsError>)
    requires fs.tree.Valid()
    modifies fs
    ensures fs.tree.Valid()
    ensures (r, fs.tree) == SetupDirOutcome(old(fs.tree), resultsDir.GetOr(DefaultRootResultsDir), [ident])
  {
    r := SetupDir(fs, resultsDir.GetOr(DefaultRootResultsDir), [ident]);
  }

  // ---------------------------------------------------------------------------
  // get_last_file_timestamp

  lemma HasElement(s: set<int>)
    requires s != {}
    ensures exists x :: x in s
  {
    if forall y :: y !in s {
      assert false;
    }
  }

  /** The largest element of a non-empty finite set of integers. */
  ghost function SetMax(s: set<int>): (m: int)
    requires s != {}
    ensures m in s && forall y | y in s :: y <= m
    decreases |s|
  {
    HasElement(s);
    var x :| x in s;
    if s == {x} then x
    else
      var rest := SetMax(s - {x});
      assert forall y | y in s :: y == x || y in s - {x};
      if x > rest then x else rest
  }

  lemma SetMaxIs(s: set<int>, m: int)
    requires m in s && forall y | y in s :: y <= m
    ensures SetMax(s) == m
  {
  }

  /** The instants named by the names that parse. */
  ghost function Stamps(names: set<string>): set<int> {
    set n | n in names && Timestamp(n).Some? :: Timestamp(n).value
  }

  /** The newest instant among the names, or None when no name parses. */
  ghost function Latest(names: set<string>): Option<int> {
    if Stamps(names) == {} then None else Some(SetMax(Stamps(names)))
  }

  /** How the scan of get_last_file_timestamp folds one more timestamp into the newest so far. */
  function Newer(last: Option<int>, ts: Option<int>): Option<int> {
    if ts.Some? && (last.None? || ts.value > last.value) then ts else last
  }

  /**
   * Latest is the maximum over the names that parse and None exactly when no
   * name parses; names that do not parse never matter.
   */
  lemma LatestIsMaximum(names: set<string>)
    ensures Latest(names).None? <==> forall n | n in names :: Timestamp(n).None?
    ensures Latest(names).Some? ==>
              (exists n | n in names :: Timestamp(n) == Latest(names))
              && forall n | n in names && Timestamp(n).Some? :: Timestamp(n).value <= Latest(names).value
  {
    forall n | n in names && Timestamp(n).Some?
      ensures Timestamp(n).value in Stamps(names)
    {
    }
    if Latest(names).Some? {
      var m := Latest(names).value;
      assert m in Stamps(names);
      var n :| n in names && Timestamp(n).Some? && Timestamp(n).value == m;
    }
  }

  /** One more name adds its instant, if it has one, to the instants named. */
  lemma StampsAdd(names: set<string>, n: string)
    ensures Stamps(names + {n}) == if Timestamp(n).Some? then Stamps(names) + {Timestamp(n).value} else Stamps(names)
  {
  }

  lemma LatestAdd(names: set<string>, n: string)
    ensures Latest(names + {n}) == Newer(Latest(names), Timestamp(n))
  {
    var s := Stamps(names);
    var s' := Stamps(names + {n});
    var ts := Timestamp(n);
    StampsAdd(names, n);
    if ts.Some? && s != {} {
      var m := SetMax(s);
      if ts.value > m {
        SetMaxIs(s', ts.value);
      } else {
        SetMaxIs(s', m);
      }
    }
  }

  /** One more listed name moves the newest instant of a listing prefix as Newer does. */
  lemma LatestStep(listing: seq<string>, i: nat)
    requires i < |listing|
    ensures Latest(Elements(listing[..i + 1])) == Newer(Latest(Elements(listing[..i])), Timestamp(listing[i]))
  {
    assert Elements(listing[..i + 1]) == Elements(listing[..i]) + {listing[i]};
    LatestAdd(Elements(listing[..i]), listing[i]);
  }

  /** get_last_file_timestamp (pollers/utils.py:60-80): the newest instant named in path. */
  method GetLastFileTimestamp<P>(fs: FileSystem<P>, path: Path) returns (r: Result<Option<int>, OsError>)
    requires fs.tree.Valid()
    ensures path !in fs.tree.dirs ==> r == Err(OsError(Listdir, path))
    ensures path in fs.tree.dirs ==> r == Ok(Latest(fs.tree.Entries(path)))
  {
    var listed := fs.ListDir(path);
    if listed.Err? {
      return Err(listed.error);
    }
    var listing := listed.value;
    var last: Option<int> := None;
    for i := 0 to |listing|
      invariant last == Latest(Elements(listing[..i]))
    {
      var ts := Timestamp(listing[i]);
      LatestStep(listing, i);
      if ts.Some? {
        if last.None? || ts.value > last.value {
          last := ts;
        }
      }
    }
    assert listing[..|listing|] == listing;
    return Ok(last);
  }

  // ---------------------------------------------------------------------------
  // cleanup_old_data

  /** Index of the first listed name whose instant is t, or the listing's length if none is. */
  function FirstWith(listing: seq<string>, t: int): (k: nat)
    ensures k <= |listing|
    ensures k < |listing| ==> Timestamp(listing[k]) == Some(t)
    ensures forall j | 0 <= j < k :: Timestamp(listing[j]) != Some(t)
    decreases |listing|
  {
    if listing == [] then 0
    else if Timestamp(listing[0]) == Some(t) then 0
    else 1 + FirstWith(listing[1..], t)
  }

  lemma LatestOfListing(listing: seq<string>)
    ensures Latest(Elements(listing)).None? <==> forall j | 0 <= j < |listing| :: Timestamp(listing[j]).None?
    ensures Latest(Elements(listing)).Some? ==>
              FirstWith(listing, Latest(Elements(listing)).value) < |listing|
              && forall j | 0 <= j < |listing| && Timestamp(listing[j]).Some? ::
                   Timestamp(listing[j]).value <= Latest(Elements(listing)).value
  {
    var names := Elements(listing);
    LatestIsMaximum(names);
    forall j | 0 <= j < |listing|
      ensures listing[j] in names
    {
    }
    if Latest(names).Some? {
      var n :| n in names && Timestamp(n) == Latest(names);
      var j :| 0 <= j < |listing| && listing[j] == n;
      assert Timestamp(listing[j]) == Some(Latest(names).value);
    }
  }

  /**
   * The file cleanup_old_data keeps in a data directory: the first-listed of
   * the names carrying the newest instant, or None when no name parses.
   */
  ghost function KeepIndex(listing: seq<string>): (k: Option<nat>)
    ensures k.Some? ==> k.value < |listing|
  {
    LatestOfListing(listing);
    match Latest(Elements(listing))
    case None => None
    case Some(t) => Some(FirstWith(listing, t))
  }

  /** The names cleanup_old_data deletes: every listed name that parses, except the kept one. */
  function DeleteSet(listing: seq<string>, keep: Option<nat>): set<string> {
    set j | 0 <= j < |listing| && (keep.None? || keep.value != j) && Timestamp(listing[j]).Some? :: listing[j]
  }

  lemma FirstWithAppendNew(prefix: seq<string>, n: string, t: int)
    requires forall j | 0 <= j < |prefix| :: Timestamp(prefix[j]) != Some(t)
    requires Timestamp(n) == Some(t)
    ensures FirstWith(prefix + [n], t) == |prefix|
  {
    var whole := prefix + [n];
    forall j | 0 <= j < |prefix|
      ensures Timestamp(whole[j]) != Some(t)
    {
      assert whole[j] == prefix[j];
    }
    assert Timestamp(whole[|prefix|]) == Some(t);
  }

  lemma FirstWithAppendOld(prefix: seq<string>, n: string, t: int)
    requires FirstWith(prefix, t) < |prefix|
    ensures FirstWith(prefix + [n], t) == FirstWith(prefix, t)
  {
    var whole := prefix + [n];
    var k0 := FirstWith(prefix, t);
    forall j | 0 <= j < |prefix|
      ensures whole[j] == prefix[j]
    {
    }
    assert Timestamp(whole[k0]) == Some(t);
  }

  lemma KeepIndexStep(prefix: seq<string>, n: string)
    ensures var ts := Timestamp(n);
            var last := Latest(Elements(prefix));
            KeepIndex(prefix + [n]) ==
              if ts.Some? && (last.None? || ts.value > last.value) then Some(|prefix|) else KeepIndex(prefix)
  {
    var ts := Timestamp(n);
    var last := Latest(Elements(prefix));
    assert Elements(prefix + [n]) == Elements(prefix) + {n};
    LatestAdd(Elements(prefix), n);
    LatestOfListing(prefix);
    if ts.Some? && (last.None? || ts.value > last.value) {
      FirstWithAppendNew(prefix, n, ts.value);
    } else if last.Some? {
      FirstWithAppendOld(prefix, n, last.value);
    }
  }

  lemma DeleteSetAppend(prefix: seq<string>, n: string, keep: Option<nat>)
    requires keep.None? || keep.value < |prefix|
    ensures DeleteSet(prefix + [n], keep) == DeleteSet(prefix, keep) + (if Timestamp(n).Some? then {n} else {})
  {
    var whole := prefix + [n];
    forall j | 0 <= j < |prefix|
      ensures whole[j] == prefix[j]
    {
    }
    assert whole[|prefix|] == n;
  }

  lemma DeleteSetAppendKept(prefix: seq<string>, n: string)
    ensures DeleteSet(prefix + [n], Some(|prefix|)) == DeleteSet(prefix, None)
  {
    var whole := prefix + [n];
    forall j | 0 <= j < |prefix|
      ensures whole[j] == prefix[j]
    {
    }
  }

  lemma DeleteSetRelease(listing: seq<string>, k: nat)
    requires k < |listing| && Timestamp(listing[k]).Some?
    ensures DeleteSet(listing, None) == DeleteSet(listing, Some(k)) + {listing[k]}
  {
  }

  /** The state of the scan once the names before position i have been read. */
  ghost predicate Scanned(listing: seq<string>, i: nat, last: Option<int>, kept: Option<string>, keep: Option<nat>, toDelete: set<string>) {
    && i <= |listing|
    && last == Latest(Elements(listing[..i]))
    && keep == KeepIndex(listing[..i])
    && kept == (if keep.Some? then Some(listing[keep.value]) else None)
    && toDelete == DeleteSet(listing[..i], keep)
  }

  /** One pass of the scan's loop body (pollers/utils.py:108-122), over the name at position i. */
  method ScanStep(listing: seq<string>, i: nat, last: Option<int>, kept: Option<string>, ghost keep: Option<nat>, toDelete: set<string>)
    returns (last': Option<int>, kept': Option<string>, ghost keep': Option<nat>, toDelete': set<string>)
    requires i < |listing| && Scanned(listing, i, last, kept, keep, toDelete)
    ensures Scanned(listing, i + 1, last', kept', keep', toDelete')
  {
    var prefix := listing[..i];
    var name := listing[i];
    assert listing[..i + 1] == prefix + [name];
    assert Elements(prefix + [name]) == Elements(prefix) + {name};
    LatestAdd(Elements(prefix), name);
    KeepIndexStep(prefix, name);
    last', kept', keep', toDelete' := last, kept, keep, toDelete;
    var ts := Timestamp(name);
    if ts.Some? {
      if last.None? {
        LatestOfListing(prefix);
        DeleteSetAppendKept(prefix, name);
        assert DeleteSet(prefix, None) == {};
        last', kept', keep' := ts, Some(name), Some(i);
      } else if ts.value > last.value {
        DeleteSetAppendKept(prefix, name);
        DeleteSetRelease(prefix, keep.value);
        toDelete' := toDelete + {kept.value};
        last', kept', keep' := ts, Some(name), Some(i);
      } else {
        DeleteSetAppend(prefix, name, keep);
        toDelete' := toDelete + {name};
      }
    } else {
      DeleteSetAppend(prefix, name, keep);
    }
  }

  /**
   * The scan of cleanup_old_data over one data directory (pollers/utils.py:103-122):
   * the name it keeps (last_filename) and the names it will delete (to_delete_files).
   */
  method PlanCleanup(listing: seq<string>) returns (kept: Option<string>, toDelete: set<string>)
    ensures kept == if KeepIndex(listing).Some? then Some(listing[KeepIndex(listing).value]) else None
    ensures toDelete == DeleteSet(listing, KeepIndex(listing))
  {
    var last: Option<int> := None;
    kept := None;
    toDelete := {};
    ghost var keep: Option<nat> := None;
    assert listing[..0] == [];
    for i := 0 to |listing|
      invariant Scanned(listing, i, last, kept, keep, toDelete)
    {
      last, kept, keep, toDelete := ScanStep(listing, i, last, kept, keep, toDelete);
    }
    assert listing[..|listing|] == listing;
  }

  /**
   * The kept file is the first-listed of those with the newest instant, and
   * there is none exactly when no listed name parses.
   */
  lemma KeepIndexIsFirstLatest(listing: seq<string>)
    ensures KeepIndex(listing).None? <==> forall j | 0 <= j < |listing| :: Timestamp(listing[j]).None?
    ensures KeepIndex(listing).Some? ==>
              var k := KeepIndex(listing).value;
              && Timestamp(listing[k]) == Latest(Elements(listing))
              && (forall j | 0 <= j < |listing| && Timestamp(listing[j]).Some? ::
                    Timestamp(listing[j]).value <= Timestamp(listing[k]).value)
              && (forall j | 0 <= j < k :: Timestamp(listing[j]) != Timestamp(listing[k]))
  {
    LatestOfListing(listing);
  }

  /**
   * What survives the deletions: names that do not parse, and the kept file
   * as the only one that parses.
   */
  lemma CleanupKeepsOnlyLatest(listing: seq<string>)
    requires NoDuplicates(listing)
    ensures var gone := DeleteSet(listing, KeepIndex(listing));
            && (forall n | n in Elements(listing) && Timestamp(n).None? :: n !in gone)
            && (KeepIndex(listing).Some? ==> listing[KeepIndex(listing).value] !in gone)
            && (forall n | n in Elements(listing) - gone && Timestamp(n).Some? ::
                  KeepIndex(listing).Some? && n == listing[KeepIndex(listing).value])
  {
    var gone := DeleteSet(listing, KeepIndex(listing));
    forall n | n in Elements(listing) - gone && Timestamp(n).Some?
      ensures KeepIndex(listing).Some? && n == listing[KeepIndex(listing).value]
    {
      var j :| 0 <= j < |listing| && listing[j] == n;
    }
  }

  /** Pruning a directory that was just pruned deletes nothing, in whatever order it is listed. */
  lemma CleanupTwiceDeletesNothing(listing: seq<string>, again: seq<string>)
    requires NoDuplicates(listing) && NoDuplicates(again)
    requires Elements(again) == Elements(listing) - DeleteSet(listing, KeepIndex(listing))
    ensures DeleteSet(again, KeepIndex(again)) == {}
  {
    CleanupKeepsOnlyLatest(listing);
    KeepIndexIsFirstLatest(again);
    forall j | 0 <= j < |again| && Timestamp(again[j]).Some?
      ensures KeepIndex(again) == Some(j)
    {
      assert again[j] in Elements(again);
      var k := KeepIndex(again).value;
      assert again[k] in Elements(again);
    }
  }

  /**
   * t1 is t0 with some files removed, only files whose names parse as an
   * instant, and every directory still holding the same newest instant.
   */
  ghost predicate Pruned<P>(t0: Tree<P>, t1: Tree<P>) {
    && t1.dirs == t0.dirs
    && t1.files.Keys == t0.files.Keys
    && forall d {:trigger PrunedDir(t0, t1, d)} | d in t0.files :: PrunedDir(t0, t1, d)
  }

  /** Pruned, for one directory d. */
  ghost predicate PrunedDir<P>(t0: Tree<P>, t1: Tree<P>, d: Path) {
    && d in t0.files && d in t1.files
    && t1.files[d].Keys <= t0.files[d].Keys
    && (forall n | n in t1.files[d] :: t1.files[d][n] == t0.files[d][n])
    && (forall n | n in t0.files[d].Keys - t1.files[d].Keys :: Timestamp(n).Some?)
    && Latest(t1.Entries(d)) == Latest(t0.Entries(d))
  }

  /** At most one entry of directory d names an instant. */
  ghost predicate Tidy<P>(t: Tree<P>, d: Path) {
    && d in t.files
    && forall a, b | a in t.Entries(d) && b in t.Entries(d) && Timestamp(a).Some? && Timestamp(b).Some? :: a == b
  }

  lemma PrunedRefl<P>(t: Tree<P>)
    ensures Pruned(t, t)
  {
    forall d | d in t.files
      ensures PrunedDir(t, t, d)
    {
    }
  }

  lemma PrunedTrans<P>(t0: Tree<P>, t1: Tree<P>, t2: Tree<P>)
    requires Pruned(t0, t1) && Pruned(t1, t2)
    ensures Pruned(t0, t2)
  {
    forall d | d in t0.files
      ensures PrunedDir(t0, t2, d)
    {
      assert PrunedDir(t0, t1, d) && PrunedDir(t1, t2, d);
    }
  }

  lemma TidyPersists<P>(t0: Tree<P>, t1: Tree<P>, d: Path)
    requires Pruned(t0, t1) && Tidy(t0, d)
    ensures Tidy(t1, d)
  {
    assert PrunedDir(t0, t1, d);
    assert t1.Entries(d) <= t0.Entries(d);
  }

  /** A set of names whose only parseable member is n has n's instant as its newest. */
  lemma LatestOfLone(names: set<string>, n: string)
    requires n in names && Timestamp(n).Some?
    requires forall m | m in names && Timestamp(m).Some? :: m == n
    ensures Latest(names) == Timestamp(n)
  {
    LatestIsMaximum(names);
  }

  /** The state of a data directory after removing the names in gone that are its files. */
  function WithoutFiles<P>(t: Tree<P>, dir: Path, gone: set<string>): Tree<P>
    requires dir in t.files
  {
    Tree(t.dirs, t.files[dir := t.files[dir] - gone])
  }

  /** Dropping names from a set keeps its newest instant as long as one name carrying it stays. */
  lemma LatestOfSubset(names: set<string>, sub: set<string>, kept: string)
    requires sub <= names
    requires Latest(names).Some? ==> kept in sub && Timestamp(kept) == Latest(names)
    ensures Latest(sub) == Latest(names)
  {
    var all, some := Stamps(names), Stamps(sub);
    assert some <= all;
    if all != {} {
      assert Timestamp(kept).value in some;
      SetMaxIs(some, SetMax(all));
    }
  }

  lemma PrunedOneDir<P>(t: Tree<P>, dir: Path, gone: set<string>)
    requires dir in t.files
    requires forall n | n in gone :: Timestamp(n).Some?
    requires Latest(WithoutFiles(t, dir, gone).Entries(dir)) == Latest(t.Entries(dir))
    ensures Pruned(t, WithoutFiles(t, dir, gone))
  {
    var t1 := WithoutFiles(t, dir, gone);
    forall d | d in t.files
      ensures PrunedDir(t, t1, d)
    {
      if d != dir {
        assert t1.Entries(d) == t.Entries(d);
      }
    }
  }

  /** Removing any part of the planned deletions prunes the directory. */
  lemma PartialCleanupPrunes<P>(t: Tree<P>, dir: Path, listing: seq<string>, gone: set<string>)
    requires t.Valid() && dir in t.dirs
    requires Elements(listing) == t.Entries(dir) && NoDuplicates(listing)
    requires gone <= DeleteSet(listing, KeepIndex(listing))
    ensures Pruned(t, WithoutFiles(t, dir, gone))
  {
    var t1 := WithoutFiles(t, dir, gone);
    CleanupKeepsOnlyLatest(listing);
    KeepIndexIsFirstLatest(listing);
    var kept := if KeepIndex(listing).Some? then listing[KeepIndex(listing).value] else "";
    assert t1.Entries(dir) <= t.Entries(dir);
    LatestOfSubset(t.Entries(dir), t1.Entries(dir), kept);
    PrunedOneDir(t, dir, gone);
  }

  /** Removing every planned deletion leaves one parseable entry at most. */
  lemma FullCleanupTidies<P>(t: Tree<P>, dir: Path, listing: seq<string>)
    requires t.Valid() && dir in t.dirs
    requires Elements(listing) == t.Entries(dir) && NoDuplicates(listing)
    requires DeleteSet(listing, KeepIndex(listing)) !! t.SubdirNames(dir)
    ensures Tidy(WithoutFiles(t, dir, DeleteSet(listing, KeepIndex(listing))), dir)
  {
    var gone := DeleteSet(listing, KeepIndex(listing));
    var t1 := WithoutFiles(t, dir, gone);
    CleanupKeepsOnlyLatest(listing);
    assert t1.Entries(dir) == t.Entries(dir) - gone;
  }

  lemma DeleteStep<P>(t: Tree<P>, dir: Path, removed: set<string>, name: string)
    requires dir in t.files && name !in removed
    ensures WithoutFiles(t, dir, removed).Delete(dir, name) ==
              if name in t.files[dir] then Ok(WithoutFiles(t, dir, removed + {name}))
              else Err(OsError(Remove, dir + [name]))
  {
    if name in t.files[dir] {
      assert (t.files[dir] - removed) - {name} == t.files[dir] - (removed + {name});
      assert t.files[dir := t.files[dir] - removed][dir := t.files[dir] - (removed + {name})]
          == t.files[dir := t.files[dir] - (removed + {name})];
    }
  }

  /** In a valid tree no name is both a file and a sub-directory of the same directory. */
  lemma FilesAreNotSubdirs<P>(t: Tree<P>, dir: Path)
    requires t.Valid() && dir in t.dirs
    ensures t.files[dir].Keys !! t.SubdirNames(dir)
  {
    forall n | n in t.SubdirNames(dir)
      ensures n !in t.files[dir]
    {
      SubdirName(t, dir, n);
      var q := dir + [n];
      assert Parent(q) == dir && Base(q) == n;
    }
  }

  /**
   * The removal loop of `cleanup_old_data` (pollers/utils.py:124-128): removes
   * the names one by one in the set's order and stops at the first `os.remove`
   * that raises; `removed` is what went before it.
   */
  method RemoveAll<P>(fs: FileSystem<P>, dir: Path, toDelete: set<string>) returns (r: Result<(), OsError>, ghost removed: set<string>)
    requires dir in fs.tree.files
    modifies fs
    ensures removed <= toDelete && removed <= old(fs.tree.files[dir].Keys)
    ensures fs.tree == WithoutFiles(old(fs.tree), dir, removed)
    ensures old(fs.tree).Valid() ==> fs.tree.Valid()
    ensures r.Ok? <==> toDelete <= old(fs.tree.files[dir].Keys)
    ensures r.Ok? ==> removed == toDelete
    ensures r.Err? ==> exists n | n in toDelete - old(fs.tree.files[dir].Keys) :: r == Err(OsError(Remove, dir + [n]))
  {
    ghost var t0 := fs.tree;
    removed := {};
    assert t0.files[dir] - {} == t0.files[dir];
    assert t0.files[dir := t0.files[dir]] == t0.files;
    var rest := toDelete;
    while rest != {}
      invariant rest <= toDelete && removed == toDelete - rest
      invariant removed <= t0.files[dir].Keys
      invariant fs.tree == WithoutFiles(t0, dir, removed)
      invariant t0.Valid() ==> fs.tree.Valid()
      decreases rest
    {
      var name :| name in rest;
      DeleteStep(t0, dir, removed, name);
      var next := fs.tree.Delete(dir, name);
      if fs.tree.Valid() {
        DeleteKeepsValid(fs.tree, dir, name);
      }
      if next.Err? {
        return Err(next.error), removed;
      }
      fs.tree := next.value;
      rest := rest - {name};
      removed := removed + {name};
    }
    return Ok(()), removed;
  }

  /**
   * One data directory of `cleanup_old_data` (pollers/utils.py:100-128):
   * lists it, plans as PlanCleanup does, and removes the planned names.
   * `listing` is the order `os.listdir` gave and `removed` what was removed
   * before success or the first failing removal.
   */
  method CleanupDataDir<P>(fs: FileSystem<P>, dir: Path) returns (r: Result<(), OsError>, ghost listing: seq<string>, ghost removed: set<string>)
    requires fs.tree.Valid()
    modifies fs
    ensures fs.tree.Valid() && Pruned(old(fs.tree), fs.tree)
    ensures dir !in old(fs.tree.dirs) ==> r == Err(OsError(Listdir, dir)) && fs.tree == old(fs.tree)
    ensures dir in old(fs.tree.dirs) ==>
              && Elements(listing) == old(fs.tree.Entries(dir)) && NoDuplicates(listing)
              && removed <= DeleteSet(listing, KeepIndex(listing))
              && fs.tree == WithoutFiles(old(fs.tree), dir, removed)
              && (r.Ok? <==> DeleteSet(listing, KeepIndex(listing)) !! old(fs.tree.SubdirNames(dir)))
              && (r.Ok? ==> removed == DeleteSet(listing, KeepIndex(listing)) && Tidy(fs.tree, dir))
              && (r.Err? ==> exists n | n in DeleteSet(listing, KeepIndex(listing)) :: r == Err(OsError(Remove, dir + [n])))
  {
    ghost var t0 := fs.tree;
    PrunedRefl(t0);
    removed := {};
    listing := [];
    var entries := fs.ListDir(dir);
    if entries.Err? {
      return Err(entries.error), listing, removed;
    }
    var names := entries.value;
    listing := names;
    var kept, toDelete := PlanCleanup(names);
    FilesAreNotSubdirs(t0, dir);
    assert toDelete <= t0.Entries(dir);
    r, removed := RemoveAll(fs, dir, toDelete);
    PartialCleanupPrunes(t0, dir, listing, removed);
    if r.Ok? {
      FullCleanupTidies(t0, dir, listing);
    }
  }

  /** A directory already pruned has nothing to delete, whatever order it is listed in. */
  lemma TidyDeletesNothing<P>(t: Tree<P>, dir: Path, listing: seq<string>)
    requires Tidy(t, dir)
    requires Elements(listing) == t.Entries(dir) && NoDuplicates(listing)
    ensures DeleteSet(listing, KeepIndex(listing)) == {}
  {
    KeepIndexIsFirstLatest(listing);
    forall j | 0 <= j < |listing| && Timestamp(listing[j]).Some?
      ensures KeepIndex(listing) == Some(j)
    {
      assert listing[j] in t.Entries(dir);
      var k := KeepIndex(listing).value;
      assert listing[k] in t.Entries(dir);
    }
  }

  /** d lies k levels below dir. */
  predicate Below(dir: Path, d: Path, k: nat) {
    |d| == |dir| + k && d[..|dir|] == dir
  }

  lemma {:induction false} AncestorIsDir<P>(t: Tree<P>, dir: Path, d: Path, k: nat)
    requires t.Valid() && d in t.dirs && Below(dir, d, k) && k > 0
    ensures d[..|dir| + 1] in t.dirs
    ensures d[|dir|] in t.SubdirNames(dir)
    decreases k
  {
    if k > 1 {
      var p := Parent(d);
      assert p[..|dir|] == dir;
      AncestorIsDir(t, dir, p, k - 1);
      assert p[..|dir| + 1] == d[..|dir| + 1];
    } else {
      assert d[..|dir| + 1] == d;
    }
    var q := d[..|dir| + 1];
    assert q[..|dir|] == dir && q[|dir|] == d[|dir|];
  }

  lemma BelowChild(dir: Path, d: Path, k: nat)
    requires Below(dir, d, k) && k > 0
    ensures Below(dir + [d[|dir|]], d, k - 1)
  {
    assert d[..|dir| + 1] == d[..|dir|] + [d[|dir|]];
  }

  /** Every directory of t0 that is not k levels below dir has the same files in t1. */
  ghost predicate SameOutside<P>(t0: Tree<P>, t1: Tree<P>, dir: Path, k: nat) {
    forall d | d in t0.files && !Below(dir, d, k) :: d in t1.files && t1.files[d] == t0.files[d]
  }

  /** A directory k - 1 levels below an entry of dir is k levels below dir. */
  lemma BelowEntry(dir: Path, name: string, d: Path, k: nat)
    requires k > 0 && Below(dir + [name], d, k - 1)
    ensures Below(dir, d, k)
  {
    assert d[..|dir|] == d[..|dir| + 1][..|dir|];
  }

  /** What the walk below one entry leaves alone, the walk of dir leaves alone too. */
  lemma SameOutsideStep<P>(t0: Tree<P>, before: Tree<P>, after: Tree<P>, dir: Path, name: string, k: nat)
    requires k > 0
    requires SameOutside(t0, before, dir, k)
    requires SameOutside(before, after, dir + [name], k - 1)
    ensures SameOutside(t0, after, dir, k)
  {
    forall d | d in t0.files && !Below(dir, d, k)
      ensures d in after.files && after.files[d] == t0.files[d]
    {
      if Below(dir + [name], d, k - 1) {
        BelowEntry(dir, name, d, k);
      }
    }
  }

  /** Cleaning one data directory leaves every other directory's files alone. */
  lemma SameOutsideOneDir<P>(t: Tree<P>, dir: Path, gone: set<string>)
    requires dir in t.files
    ensures SameOutside(t, WithoutFiles(t, dir, gone), dir, 0)
  {
    assert dir[..|dir|] == dir;
  }

  /** No directory fewer than k levels below dir, dir itself included, holds a file. */
  ghost predicate UpperEmpty<P>(t: Tree<P>, dir: Path, k: nat) {
    forall d, j | d in t.files && 0 <= j < k && Below(dir, d, j) :: t.files[d] == map[]
  }

  /** No sub-directory of d has a name that parses as an instant, so cleaning d never removes a directory. */
  ghost predicate NoStampedSubdir<P>(t: Tree<P>, d: Path) {
    forall n | n in t.SubdirNames(d) :: Timestamp(n).None?
  }

  /**
   * A tree the walk of `cleanup_old_data` goes through: dir is a directory,
   * the levels above the data directories hold only directories, and no data
   * directory has a sub-directory named like a snapshot.
   */
  ghost predicate WalkOk<P>(t: Tree<P>, dir: Path, k: nat) {
    && dir in t.dirs
    && UpperEmpty(t, dir, k)
    && forall d | d in t.dirs && Below(dir, d, k) :: NoStampedSubdir(t, d)
  }

  /** Once the walk has pruned part of a walkable tree, every entry of dir is still walkable. */
  lemma WalkOkChild<P>(t0: Tree<P>, t: Tree<P>, dir: Path, k: nat, name: string)
    requires t0.Valid() && k > 0 && WalkOk(t0, dir, k) && name in t0.Entries(dir)
    requires Pruned(t0, t) && SameOutside(t0, t, dir, k)
    ensures WalkOk(t, dir + [name], k - 1)
  {
    assert dir[..|dir|] == dir;
    assert dir in t0.files && Below(dir, dir, 0);
    assert t0.files[dir] == map[];
    SubdirName(t0, dir, name);
    forall d, j | d in t.files && 0 <= j < k - 1 && Below(dir + [name], d, j)
      ensures t.files[d] == map[]
    {
      BelowEntry(dir, name, d, j + 1);
    }
    forall d | d in t.dirs && Below(dir + [name], d, k - 1)
      ensures NoStampedSubdir(t, d)
    {
      BelowEntry(dir, name, d, k);
    }
  }

  /** Where no sub-directory is named like a snapshot, the planned deletions are all files. */
  lemma NoStampedSubdirCleans<P>(t: Tree<P>, dir: Path, listing: seq<string>)
    requires NoStampedSubdir(t, dir)
    ensures DeleteSet(listing, KeepIndex(listing)) !! t.SubdirNames(dir)
  {
  }

  /** No directory fewer than k levels below dir, under one of the first steps in firsts, held a file. */
  ghost predicate UpperWalked<P>(t: Tree<P>, dir: Path, k: nat, firsts: set<string>) {
    forall d, j | d in t.files && 0 < j < k && Below(dir, d, j) && d[|dir|] in firsts :: t.files[d] == map[]
  }

  /** A successful walk below one more entry extends what is known to have held no file. */
  lemma UpperWalkedStep<P>(t0: Tree<P>, before: Tree<P>, dir: Path, k: nat, firsts: set<string>, name: string)
    requires k > 0 && UpperWalked(t0, dir, k, firsts)
    requires SameOutside(t0, before, dir, k) && UpperEmpty(before, dir + [name], k - 1)
    ensures UpperWalked(t0, dir, k, firsts + {name})
  {
    forall d, j | d in t0.files && 0 < j < k && Below(dir, d, j) && d[|dir|] in firsts + {name}
      ensures t0.files[d] == map[]
    {
      if d[|dir|] == name {
        BelowChild(dir, d, j);
        assert d[..|dir| + 1] == dir + [name];
      }
    }
  }

  /** When every entry of dir held no file below, and dir held none, nothing above k levels did. */
  lemma UpperCovered<P>(t: Tree<P>, dir: Path, k: nat, names: seq<string>)
    requires t.Valid() && dir in t.dirs && k > 0 && t.files[dir] == map[]
    requires t.SubdirNames(dir) <= Elements(names)
    requires UpperWalked(t, dir, k, Elements(names))
    ensures UpperEmpty(t, dir, k)
  {
    forall d, j | d in t.files && 0 <= j < k && Below(dir, d, j)
      ensures t.files[d] == map[]
    {
      if j == 0 {
        assert d == d[..|dir|];
      } else {
        AncestorIsDir(t, dir, d, j);
      }
    }
  }

  /** Every directory k levels below dir is tidy. */
  ghost predicate AllTidyBelow<P>(t: Tree<P>, dir: Path, k: nat) {
    forall d | d in t.dirs && Below(dir, d, k) :: Tidy(t, d)
  }

  lemma TidyAtZero<P>(t: Tree<P>, dir: Path)
    requires Tidy(t, dir)
    ensures AllTidyBelow(t, dir, 0)
  {
    forall d | d in t.dirs && Below(dir, d, 0)
      ensures d == dir
    {
      assert d == d[..|dir|];
    }
  }

  /** Every directory k levels below dir whose first step below dir is one of firsts is tidy. */
  ghost predicate TidyBelow<P>(t: Tree<P>, dir: Path, k: nat, firsts: set<string>) {
    forall d | d in t.dirs && Below(dir, d, k) && k > 0 && d[|dir|] in firsts :: Tidy(t, d)
  }

  lemma TidyBelowStep<P>(before: Tree<P>, after: Tree<P>, dir: Path, k: nat, firsts: set<string>, name: string)
    requires k > 0 && Pruned(before, after)
    requires TidyBelow(before, dir, k, firsts)
    requires AllTidyBelow(after, dir + [name], k - 1)
    ensures TidyBelow(after, dir, k, firsts + {name})
  {
    forall d | d in after.dirs && Below(dir, d, k) && d[|dir|] in firsts + {name}
      ensures Tidy(after, d)
    {
      if d[|dir|] == name {
        BelowChild(dir, d, k);
      } else {
        TidyPersists(before, after, d);
      }
    }
  }

  /** Once every entry of dir has been walked, every directory k levels down has been. */
  lemma AllBelowCovered<P>(t: Tree<P>, dir: Path, k: nat, names: seq<string>)
    requires t.Valid() && dir in t.dirs && k > 0
    requires t.SubdirNames(dir) <= Elements(names)
    requires TidyBelow(t, dir, k, Elements(names))
    ensures AllTidyBelow(t, dir, k)
  {
    forall d | d in t.dirs && Below(dir, d, k)
      ensures d[|dir|] in Elements(names)
    {
      AncestorIsDir(t, dir, d, k);
    }
  }

  /** When every entry of dir is a directory, dir holds no file. */
  lemma NoFilesWhenAllDirs<P>(t: Tree<P>, dir: Path, names: seq<string>)
    requires t.Valid() && dir in t.dirs
    requires Elements(names) == t.Entries(dir)
    requires forall j | 0 <= j < |names| :: dir + [names[j]] in t.dirs
    ensures t.files[dir] == map[]
  {
    forall n | n in Elements(names)
      ensures n !in t.files[dir]
    {
      var j :| 0 <= j < |names| && names[j] == n;
      var q := dir + [n];
      assert Parent(q) == dir && Base(q) == n;
    }
    assert t.files[dir].Keys == {};
  }

  /**
   * The walk of `cleanup_old_data` (pollers/utils.py:94-101) from dir down
   * k levels: every entry is listed as a directory, and every directory k
   * levels down is cleaned as CleanupDataDir does. The three nested loops of
   * the source are the levels 3, 2 and 1; the first call that raises stops
   * the walk.
   */
  method CleanupBelow<P>(fs: FileSystem<P>, dir: Path, k: nat) returns (r: Result<(), OsError>)
    requires fs.tree.Valid()
    modifies fs
    ensures fs.tree.Valid() && Pruned(old(fs.tree), fs.tree)
    ensures dir !in old(fs.tree.dirs) ==> r == Err(OsError(Listdir, dir))
    ensures r.Ok? ==> dir in old(fs.tree.dirs)
    ensures r.Ok? ==> UpperEmpty(old(fs.tree), dir, k)
    ensures r.Ok? ==> AllTidyBelow(fs.tree, dir, k)
    ensures SameOutside(old(fs.tree), fs.tree, dir, k)
    ensures WalkOk(old(fs.tree), dir, k) ==> r.Ok?
    decreases k, 2
  {
    if k == 0 {
      ghost var listing, removed;
      r, listing, removed := CleanupDataDir(fs, dir);
      if dir in old(fs.tree.dirs) {
        SameOutsideOneDir(old(fs.tree), dir, removed);
        if WalkOk(old(fs.tree), dir, 0) {
          assert dir[..|dir|] == dir;
          NoStampedSubdirCleans(old(fs.tree), dir, listing);
        }
      }
      if r.Ok? {
        TidyAtZero(fs.tree, dir);
      }
      return;
    }
    var entries := fs.ListDir(dir);
    if entries.Err? {
      return Err(entries.error);
    }
    r := CleanupEntries(fs, dir, entries.value, k);
  }

  /** One level of the walk: every entry of dir, in the order `os.listdir` gave them. */
  method CleanupEntries<P>(fs: FileSystem<P>, dir: Path, names: seq<string>, k: nat) returns (r: Result<(), OsError>)
    requires fs.tree.Valid() && dir in fs.tree.dirs && k > 0
    requires Elements(names) == fs.tree.Entries(dir)
    modifies fs
    ensures fs.tree.Valid() && Pruned(old(fs.tree), fs.tree)
    ensures r.Ok? ==> UpperEmpty(old(fs.tree), dir, k)
    ensures r.Ok? ==> AllTidyBelow(fs.tree, dir, k)
    ensures SameOutside(old(fs.tree), fs.tree, dir, k)
    ensures WalkOk(old(fs.tree), dir, k) ==> r.Ok?
    decreases k, 1
  {
    ghost var t0 := fs.tree;
    PrunedRefl(t0);
    for i := 0 to |names|
      invariant fs.tree.Valid() && Pruned(t0, fs.tree)
      invariant SameOutside(t0, fs.tree, dir, k)
      invariant forall j | 0 <= j < i :: dir + [names[j]] in t0.dirs
      invariant TidyBelow(fs.tree, dir, k, Elements(names[..i]))
      invariant UpperWalked(t0, dir, k, Elements(names[..i]))
    {
      var sub := WalkEntry(fs, dir, names, k, i, t0);
      if sub.Err? {
        return sub;
      }
    }
    AllEntriesWalked(t0, fs.tree, dir, k, names);
    return Ok(());
  }

  /** One pass of the walk's loop: the walk below the i-th entry of dir. */
  method WalkEntry<P>(fs: FileSystem<P>, dir: Path, names: seq<string>, k: nat, i: nat, ghost t0: Tree<P>)
    returns (r: Result<(), OsError>)
    requires t0.Valid() && fs.tree.Valid() && dir in t0.dirs && k > 0 && i < |names|
    requires Elements(names) == t0.Entries(dir)
    requires Pruned(t0, fs.tree) && SameOutside(t0, fs.tree, dir, k)
    requires TidyBelow(fs.tree, dir, k, Elements(names[..i])) && UpperWalked(t0, dir, k, Elements(names[..i]))
    modifies fs
    ensures fs.tree.Valid() && Pruned(t0, fs.tree) && SameOutside(t0, fs.tree, dir, k)
    ensures r.Ok? ==> dir + [names[i]] in t0.dirs
    ensures r.Ok? ==> TidyBelow(fs.tree, dir, k, Elements(names[..i + 1])) && UpperWalked(t0, dir, k, Elements(names[..i + 1]))
    ensures WalkOk(t0, dir, k) ==> r.Ok?
    decreases k, 0
  {
    ghost var before := fs.tree;
    if WalkOk(t0, dir, k) {
      assert names[i] in Elements(names);
      WalkOkChild(t0, before, dir, k, names[i]);
    }
    r := CleanupBelow(fs, dir + [names[i]], k - 1);
    EntryWalked(t0, before, fs.tree, dir, k, names, i, r.Ok?);
  }

  /**
   * After the walk below the i-th entry the tree is still only pruned and
   * unchanged outside the walk; when that walk succeeded, the entry was a
   * directory and the first i + 1 entries are tidy below.
   */
  lemma EntryWalked<P>(t0: Tree<P>, before: Tree<P>, after: Tree<P>, dir: Path, k: nat, names: seq<string>, i: nat, ok: bool)
    requires k > 0 && i < |names| && Pruned(t0, before) && Pruned(before, after)
    requires SameOutside(t0, before, dir, k) && SameOutside(before, after, dir + [names[i]], k - 1)
    requires TidyBelow(before, dir, k, Elements(names[..i]))
    requires ok ==> AllTidyBelow(after, dir + [names[i]], k - 1)
    requires UpperWalked(t0, dir, k, Elements(names[..i]))
    requires ok ==> UpperEmpty(before, dir + [names[i]], k - 1)
    ensures Pruned(t0, after) && SameOutside(t0, after, dir, k)
    ensures ok ==> TidyBelow(after, dir, k, Elements(names[..i + 1]))
    ensures ok ==> UpperWalked(t0, dir, k, Elements(names[..i + 1]))
  {
    PrunedTrans(t0, before, after);
    SameOutsideStep(t0, before, after, dir, names[i], k);
    if ok {
      assert Elements(names[..i + 1]) == Elements(names[..i]) + {names[i]};
      TidyBelowStep(before, after, dir, k, Elements(names[..i]), names[i]);
      UpperWalkedStep(t0, before, dir, k, Elements(names[..i]), names[i]);
    }
  }

  /** Once every entry was walked into as a directory, dir held no file and all of it is tidy below. */
  lemma AllEntriesWalked<P>(t0: Tree<P>, t: Tree<P>, dir: Path, k: nat, names: seq<string>)
    requires t0.Valid() && t.Valid() && dir in t0.dirs && k > 0 && Pruned(t0, t)
    requires Elements(names) == t0.Entries(dir)
    requires forall j | 0 <= j < |names| :: dir + [names[j]] in t0.dirs
    requires TidyBelow(t, dir, k, Elements(names[..|names|]))
    requires UpperWalked(t0, dir, k, Elements(names[..|names|]))
    ensures UpperEmpty(t0, dir, k)
    ensures AllTidyBelow(t, dir, k)
  {
    assert names[..|names|] == names;
    assert t.SubdirNames(dir) == t0.SubdirNames(dir);
    AllBelowCovered(t, dir, k, names);
    NoFilesWhenAllDirs(t0, dir, names);
    UpperCovered(t0, dir, k, names);
  }

  /** cleanup_old_data (pollers/utils.py:83-128) over results_dir, or DEFAULT_ROOT_RESULTS_DIR when None. */
  method CleanupOldData<P>(fs: FileSystem<P>, resultsDir: Option<Path>) returns (r: Result<(), OsError>)
    requires fs.tree.Valid()
    modifies fs
    ensures fs.tree.Valid() && Pruned(old(fs.tree), fs.tree)
    ensures var root := resultsDir.GetOr(DefaultRootResultsDir);
            && (root !in old(fs.tree.dirs) ==> r == Err(OsError(Listdir, root)))
            && (r.Ok? ==> UpperEmpty(old(fs.tree), root, 3) && AllTidyBelow(fs.tree, root, 3))
            && SameOutside(old(fs.tree), fs.tree, root, 3)
            && (WalkOk(old(fs.tree), root, 3) ==> r.Ok?)
  {
    r := CleanupBelow(fs, resultsDir.GetOr(DefaultRootResultsDir), 3);
  }
}
