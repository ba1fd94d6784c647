# VoluMapper in Dafny

VoluMapper maps Amazon EBS volumes to the EC2 instances they are attached to and prints one table row per volume. For each region it polls the EC2 API through a freshness-gated snapshot cache:

- the answers of each API call are pickled into `<results>/<access key id>/<region>/<data dir>/<epoch seconds>.pkl`;
- a later call reuses the newest snapshot unless the clock has moved more than a day past it (a snapshot exactly a day old, or one stamped later than the clock, is reused);
- a maintenance utility prunes every data directory down to its newest snapshot.

This project models that core:

- `py_int.dfy` (module `PyInt`): how a file name becomes a timestamp. Python 2 `int()` is applied to the text before the first dot. The module also covers how a timestamp becomes a snapshot name.
- `os_model.dfy` (module `Os`): the part of the file system the program touches. A tree is a set of directories plus, per directory, a map from file name to stored payload. `mkdir`, `remove`, open/dump and open/load are total functions with explicit errors. `listdir` is the method `Os.FileSystem.ListDir`, which returns the entries in an order of its own choosing. A `FileSystem` object holds the current tree and is updated in place.
- `utils.dfy` (module `Utils`): `setup_dir`, `setup_env`, `get_last_file_timestamp` and `cleanup_old_data` from `pollers/utils.py`. `volumapper/utils.py` is a byte-identical copy and shares this model; a row below that cites either file holds for both, at the same lines.
- `cache.dfy` (module `Cache`): the `track_results` wrapper. It covers the freshness decision, fetch or reuse, and the write of a fresh snapshot.
- `poller.dfy` (module `Poller`): `get_instances` and `get_volumes`, both as written and corrected, plus the region poller, the factory and `run`, which concatenates the per-region answers in region order.
- `report.dfy` (module `Report`): the join of `output_to_table`. It builds the index of instances by id and produces one row per volume, with `NOT FOUND` where no instance matches.

Each state-changing operation is a module-level method that takes a `FileSystem` and updates its tree. Its contract ties the new tree to a specification function of the old tree, and the properties are proved about those functions. The cleanup walk is the exception (`Utils.CleanupBelow`, `Utils.CleanupEntries`, `Utils.WalkEntry` and `Utils.CleanupOldData`). The listing order at each level is left open, and a failing remove stops the walk part-way. So the walk's contracts relate the old and new trees through the predicates `Pruned`, `SameOutside` and `AllTidyBelow`, and state when the walk succeeds with `WalkOk`. The three nested `os.listdir` loops of `cleanup_old_data` become one method recursing on the remaining depth (`Utils.CleanupBelow`). The per-directory selection loop is `Utils.PlanCleanup`.

## Model

| member | source | states |
|---|---|---|
| PyInt.BeforeFirstDot | pollers/utils.py:73 | the result is the longest dot-free prefix of the name: a prefix, with no dot, followed by a dot or by the end of the name |
| PyInt.NumeralRoundTrip | aws_poller/__main__.py:117 | the decimal numeral of a natural number is all digits and reads back as that number |
| PyInt.ParseFormat | aws_poller/__main__.py:117 | `int()` of the `str.format` rendering of any integer, negative ones included, gives the integer back |
| PyInt.ParseIntAccepts | pollers/utils.py:73 | `int(text)` gives n exactly when the text is spaces, an optional sign, spaces, a non-empty run of digits worth the magnitude of n, and spaces, with n negative only after a `-` |
| PyInt.ParseIntRejectsStray | pollers/utils.py:109 | a text holding a character that is not a space, a digit or a sign raises ValueError, so a name with one before its first dot is skipped |
| PyInt.ParseIntRejectsEdges | volumapper/utils.py:73 | the empty text, a lone sign (with or without spaces) and `1a` raise ValueError |
| PyInt.ParseIntSpaceAfterSign | volumapper/utils.py:109 | spaces around the text and between the sign and the digits are accepted: ` - 5 ` reads as -5 |
| PyInt.TimestampOfSnapshotName | aws_poller/__main__.py:117 | the name written for epoch n, `n.pkl`, parses back to n |
| PyInt.LeadingZeroNameIsNotSnapshotName | aws_poller/__main__.py:102-103 | `0123.pkl` counts as timestamp 123, yet the snapshot name rebuilt from 123 is `123.pkl`, a different file |
| Os.FileSystem.ListDir | pollers/utils.py:71 | listing a missing directory is an error; listing a directory gives each of its entries, files and subdirectories, exactly once |
| Os.MkDirKeepsValid | pollers/utils.py:38-39 | `mkdir` succeeds exactly when nothing exists at the path and its parent is a directory, and it keeps the tree well formed |
| Os.WriteKeepsValid | aws_poller/__main__.py:125-126 | opening a file for writing fails only when the directory is missing or the name is a subdirectory; an existing file is overwritten |
| Os.ReadAfterWrite | aws_poller/__main__.py:125-130 | after a dump, loading that name gives the value dumped, and every other name loads as before |
| Os.DeleteKeepsValid | pollers/utils.py:126 | removing a file from a well-formed tree leaves it well formed |
| Utils.SetupDir | pollers/utils.py:29-42 | the new tree and outcome are those of the specification: path and each path/sub are created when missing and nothing else is added; the first failing `mkdir` ends it with its error |
| Utils.SetupSubDirs | pollers/utils.py:41-42 | once path is in place, the loop over the sub-directories gives the outcome and tree of the whole setup_dir specification |
| Utils.SetupDirIdempotent | volumapper/utils.py:38-42 | after a successful setup_dir, running it again succeeds and changes nothing |
| Utils.SetupEnv | pollers/utils.py:45-57 | setup_env is setup_dir of the results directory (default `results`) with the one subdirectory ident |
| Utils.LatestIsMaximum | volumapper/utils.py:70-80 | the latest timestamp is None exactly when no name parses, and otherwise it is the timestamp of some name and no parseable name is later |
| Utils.LatestAdd | pollers/utils.py:77-78 | adding one name to the set updates the latest timestamp as the loop body does: a parseable, strictly later name replaces it |
| Utils.LatestStep | pollers/utils.py:71-78 | one more listed name moves the newest instant of the listing so far exactly as the loop body does |
| Utils.GetLastFileTimestamp | pollers/utils.py:60-80 | a missing directory raises the listing error; otherwise the result is the maximum over the entries that parse, None when none do, whatever the listing order |
| Utils.FirstWith | pollers/utils.py:113-120 | the index returned is the first listing position whose name parses to the given timestamp, or the length when none does |
| Utils.LatestOfListing | pollers/utils.py:107-122 | over a listing, the latest timestamp is None exactly when no name parses; otherwise some position carries it and no parseable name is later |
| Utils.KeepIndexStep | pollers/utils.py:113-122 | one more listed name becomes the kept one exactly when it parses and is strictly later than all before it; equal timestamps keep the earlier name |
| Utils.ScanStep | pollers/utils.py:108-122 | one pass over the next name keeps the scan state exact: the running latest timestamp, the first-listed latest name and the deletion set of the names read so far |
| Utils.PlanCleanup | pollers/utils.py:103-122 | the loop's kept file and deletion set are the first-listed name with the latest timestamp and every other parseable name |
| Utils.KeepIndexIsFirstLatest | pollers/utils.py:103-122 | nothing is kept exactly when no name parses; otherwise the kept name carries the maximum timestamp and no earlier name has the same one |
| Utils.CleanupKeepsOnlyLatest | pollers/utils.py:103-126 | names that do not parse are never deleted, the kept name is not deleted, and every other parseable name is |
| Utils.CleanupTwiceDeletesNothing | volumapper/utils.py:103-126 | on what a first cleanup leaves, a second one selects nothing to delete, whatever the new listing order |
| Utils.TidyDeletesNothing | volumapper/utils.py:107-122 | a directory with at most one parseable name loses nothing |
| Utils.PrunedTrans | pollers/utils.py:94-126 | pruning composes: the relation of a pruned tree to its original is transitive |
| Utils.TidyPersists | pollers/utils.py:94-126 | a directory already down to one snapshot stays so under further pruning |
| Utils.PartialCleanupPrunes | pollers/utils.py:124-126 | removing any part of the selected set removes only parseable names and keeps the directory's latest timestamp |
| Utils.FullCleanupTidies | pollers/utils.py:107-126 | removing all the selected names, none of which is a subdirectory, leaves at most one parseable name in the directory |
| Utils.RemoveAll | pollers/utils.py:124-126 | the names removed are a subset of the requested set; all are removed exactly when all are files of the directory; otherwise the error names a requested name that is not a file; a well-formed tree stays well formed |
| Utils.CleanupDataDir | pollers/utils.py:100-128 | one data directory: a missing directory is a listing error; otherwise the listing is its entries, the removed names are part of the selected set, and success means all of it is removed and the directory holds at most one parseable name |
| Utils.AncestorIsDir | pollers/utils.py:94-101 | a directory k levels below another lies under one of its listed subdirectories |
| Utils.NoFilesWhenAllDirs | pollers/utils.py:94-101 | when every listed entry was walked into as a directory, the directory holds no files |
| Utils.WalkOkChild | pollers/utils.py:94-101 | while the walk prunes a walkable tree, every entry of the current level stays walkable one level lower: a directory with empty upper levels and clean data directories |
| Utils.CleanupBelow | pollers/utils.py:94-128 | walking k levels down: the tree is only pruned, and no directory other than those exactly k levels below changes; a missing directory is a listing error; the walk succeeds whenever the levels above hold only directories and no data directory has a sub-directory named like a snapshot; on success every data directory k levels below is down to one snapshot, and no directory above them held a file |
| Utils.CleanupEntries | pollers/utils.py:94-101 | the loop over one level's listing: the tree is only pruned, only directories k levels below change; it succeeds on every walkable tree, and on success no directory above k levels held a file and every entry is tidy below |
| Utils.WalkEntry | pollers/utils.py:94-101 | one pass of a level's loop: the walk below the next entry keeps the tree pruned and unchanged outside the walk, succeeds on a walkable tree, and on success extends the tidy and empty-level facts to that entry |
| Utils.CleanupOldData | pollers/utils.py:83-128 | from the results directory (default `results`) three levels down, the tree is only pruned: dirs unchanged, only parseable names removed, each directory's latest timestamp unchanged, and no directory other than the data directories three levels down loses a file; on a `results/<ident>/<region>/<data dir>` tree whose upper levels hold only directories and whose data directories have no sub-directory named like a snapshot it succeeds, and success leaves every data directory with at most one snapshot |
| Cache.Decide | aws_poller/__main__.py:108 | a Reuse decision reuses the latest timestamp found |
| Cache.ReuseWindow | aws_poller/__main__.py:108 | without force, the cache is reused exactly when now - last <= freshness; an elapsed time equal to the budget and a clock behind the snapshot both reuse |
| Cache.RefreshCases | aws_poller/__main__.py:108 | force_grab, or no timestamp at all, always fetches |
| Cache.TrackKeepsValid | aws_poller/__main__.py:98-132 | the wrapper keeps the tree well formed |
| Cache.TrackResults | aws_poller/__main__.py:98-132 | the method's result and new tree are those of the wrapper's specification on the data directory |
| Cache.ReuseReadsSnapshot | aws_poller/__main__.py:127-130 | on reuse nothing is written, the fetch is not consulted, and the result is the stored `last.pkl` or an unhandled open error when it is missing |
| Cache.RaisedWritesNothing | aws_poller/__main__.py:110-116 | a fetch that raises leaves the tree unchanged and, when a refresh was due, returns an empty list |
| Cache.RefreshStores | aws_poller/__main__.py:116-126 | a refresh returns the fetched list; an empty list writes nothing; otherwise `now.pkl` holds the list, overwriting any file of that name, and every other file and directory is unchanged |
| Cache.EntriesAfterWrite | aws_poller/__main__.py:125-126 | writing a snapshot adds its name to the directory's entries and nothing else |
| Cache.WriteMakesNewest | aws_poller/__main__.py:116-126 | writing `now.pkl` into a directory with nothing newer than now succeeds, makes now the newest instant there and stores the list under that name |
| Cache.RefreshThenReuse | aws_poller/__main__.py:102-130 | after a fresh write, a call within the budget (and not forced) returns the same list from the snapshot without changing the tree |
| Cache.ForcedWriteBehindClockIsShadowed | aws_poller/__main__.py:102-126 | a forced write under a clock behind the newest snapshot stores its list, but a later unforced call reads the newer snapshot instead |
| Cache.ReuseMissesLeadingZeroName | aws_poller/__main__.py:102-103 | a directory holding only `0123.pkl` that is still fresh makes the wrapper open `123.pkl`, which fails |
| Poller.GetInstances | aws_poller/__main__.py:273-281 | one EC2Instance per provider instance, in order, carrying its id, state and type |
| Poller.GetVolumes | aws_poller/__main__.py:251-264 | the loop's list is the corrected get_volumes specification |
| Poller.RogueIncludedIsOneForOne | aws_poller/__main__.py:254-262 | with rogue volumes included, one EBSVolume per provider volume, in order, with the attachment's instance id, or the empty id when unattached |
| Poller.RogueExcludedKeepsAttached | aws_poller/__main__.py:254-262 | with rogue volumes excluded, the list is that of the attached volumes alone, and every entry names an instance |
| Poller.GetVolumesAsWritten | aws_poller/__main__.py:251-264 | the loop as written computes the as-written specification: the first exception raised, or the list built |
| Poller.AsWrittenErrorSticks | aws_poller/__main__.py:254-262 | once the loop has raised on a prefix, the whole call raises the same exception |
| Poller.AsWrittenAgreesWhenAllAttached | aws_poller/__main__.py:254-258 | when every volume is attached, the code as written and the corrected version give the same list |
| Poller.AsWrittenRaisesOnUnattached | aws_poller/__main__.py:259 | since the region poller has no include_rogue_volumes attribute, any unattached volume makes get_volumes raise AttributeError |
| Poller.AsWrittenNeverUnbound | aws_poller/__main__.py:254-262 | without the attribute, AttributeError is the only exception get_volumes can raise |
| Poller.StaleVolumeAppended | aws_poller/__main__.py:259-262 | with the flag false, an unattached volume after an attached one appends the attached one again, where the corrected version skips it |
| Poller.UnattachedFirstIsUnbound | aws_poller/__main__.py:259-262 | with the flag false, an unattached first volume raises UnboundLocalError |
| Poller.EnvPath | aws_poller/__main__.py:236 | a region poller's directory is the base directory extended by two components |
| Poller.NewRegionPoller | aws_poller/__main__.py:217-242 | the region directory and its `instances` and `volumes` subdirectories are set up; a failure is returned and otherwise the poller holds the region, force flag and that directory |
| Poller.PollInstances | aws_poller/__main__.py:266-281 | get_instances under the wrapper: result and new tree are the wrapper's specification on `instances` with a one-day budget |
| Poller.PollVolumes | aws_poller/__main__.py:244-264 | get_volumes under the wrapper: result and new tree are the wrapper's specification on `volumes` with a one-day budget |
| Poller.AsWrittenPollDropsAllVolumes | aws_poller/__main__.py:110-114 | when a refresh is due and one volume is unattached, the wrapper around get_volumes as written returns no volumes at all and leaves the tree as it was |
| Poller.PollRegion | aws_poller/__main__.py:205-209 | one pass of run's loop: the region poller, then its instances, then its volumes, with the first error ending it, as the step specification says |
| Poller.NewFactory | aws_poller/__main__.py:144-175 | the factory sets up `results/<access key id>`; the regions default to all ten |
| Poller.RunSpecStep | aws_poller/__main__.py:204-209 | one more region extends both lists by that region's answers, or ends with its error |
| Poller.FoldErrorSticks | aws_poller/__main__.py:204-209 | once a region fails, run fails with that error and the tree it left |
| Poller.Run | aws_poller/__main__.py:192-211 | the loop's result and tree are those of the specification over the factory's regions |
| Poller.FoldConcat | aws_poller/__main__.py:200-211 | a loop over regions a then b is the loop over a, then over b from the tree a left, with a's lists followed by b's |
| Poller.RunConcat | aws_poller/__main__.py:200-211 | run over a then b returns a's volumes and instances followed by b's, in region order, unless a region fails first |
| Report.InstanceIndex | aws_poller/__main__.py:60 | every id in the index maps to an instance with that id |
| Report.IndexFindsLast | aws_poller/__main__.py:60 | an id is in the index exactly when some instance has it, and it then maps to the last instance with that id |
| Report.JoinRow | aws_poller/__main__.py:67-79 | the volume columns are copied from the volume; the id, type and state columns are those of the indexed instance, or are all `NOT FOUND` when the id is not in the index |
| Report.JoinRowIsRowFor | aws_poller/__main__.py:60-79 | looking a volume up in the index gives the row the report promises: the last instance with the volume's instance id, or `NOT FOUND` when none has it |
| Report.OutputToTable | aws_poller/__main__.py:43-81 | exactly one row per volume, in volume order, each the row the report promises for that volume |

## Left out

- Pickling, the clock and the EC2 API are not modelled as such. A snapshot's payload is an opaque value stored in the tree. The current epoch is the parameter `now`. Each API answer is a `Fetch` parameter: a list, or an exception.
- Cache.TrackResults: `datetime.utcnow().strftime("%s")` is platform-dependent and is replaced by the `now` parameter. The logging calls are left out.
- Poller.PollVolumes: it fetches with the corrected get_volumes, taking the include-rogue flag from the factory (see Findings). The as-written behaviour is modelled separately by Poller.GetVolumesAsWritten and Poller.AsWrittenPollDropsAllVolumes.
- Poller.NewRegionPoller: the base directory is a parameter. The `utils` module that `aws_poller/__main__.py` imports for `BASE_RESULTS_DIR` is not part of this model. The utils files modelled here define `DEFAULT_ROOT_RESULTS_DIR` instead.
- Poller.NewFactory: the secret access key and the boto connection that `get_region_poller` opens are left out; they only serve the API calls.
- Report.OutputToTable: the volume size stays an integer. The `%.1fGB` float rendering and the `tabulate` output are not modelled.
- Report.OutputToTable takes typed lists of volumes and instances. The snapshots and `run` carry `Record` values, because a pickled Python list is untyped.
- Utils.CleanupOldData: the progress lines it prints are left out. The order in which the selected files are removed is not stated; only which files are removed is stated.
- Os.FileSystem.ListDir: the order of a listing is left open. Every claim holds for any order.
- Cache.Track also returns a listing error when the data directory is missing from the file map. In a well-formed tree this case coincides with the directory being missing.
- The command-line entry points are not modelled: argument parsing, credentials from environment variables, the verbosity switch and `main`'s check that some volume was found. The de-duplication of `--region` values is left out too, because its order is unspecified.
- Concurrency is not modelled: two pollers writing the same directory at once are outside the model.
- `os.path.join` is modelled as appending one path component (a path is a sequence of names). A sub-directory, ident or region name that is empty, `.`, `..`, absolute or contains `/` behaves differently in the program: for example `setup_dir(p, [""])` makes nothing new, because `p/` is `p`, while the model adds a directory named `""` under `p`.
- Error details beyond the failing operation and path, such as errno or message text, are not modelled.

## Findings

| source | as written | input that shows it | evidently intended | confidence | as-written member | corrected member |
|---|---|---|---|---|---|---|
| aws_poller/__main__.py:259 | `get_volumes` reads `self.include_rogue_volumes`, which `AWSRegionPoller` never sets (only the factory has it), so any unattached volume raises AttributeError and `track_results` turns the whole volume list into `[]` | one unattached volume, e.g. `vol-b` with no attachment, when a refresh is due | unattached volumes are skipped or kept with an empty instance id according to the factory's flag | not executed | Poller.AsWrittenRaisesOnUnattached | Poller.RogueExcludedKeepsAttached |
| aws_poller/__main__.py:259-262 | when the flag is false, an unattached volume assigns nothing, yet `new_volume` is still appended: the previous volume again, or UnboundLocalError when none came before | `[vol-a attached to i-1, vol-b unattached]` with the flag false gives `[vol-a, vol-a]` | an unattached volume is skipped when the flag is false | not executed | Poller.StaleVolumeAppended | Poller.GetVolumes |
