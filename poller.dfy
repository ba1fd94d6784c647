/**
 * The pollers of aws_poller/__main__.py: mapping the provider's instance and
 * volume descriptions to the EC2Instance and EBSVolume records, the region
 * poller whose two methods are cached by track_results, and the factory that
 * runs one region poller per region and concatenates what they return. The
 * provider's API is not modelled: what each call returned (or that it
 * raised) and the clock reading of each cached call are parameters.
 */
module Poller {
  import opened Wrappers
  import opened Os
  import opened Utils
  import opened Cache

  const AllRegions: seq<string> := [
    "us-east-1", "us-west-1", "us-west-2", "eu-west-1", "eu-central-1",
    "ap-northeast-1", "ap-northeast-2", "ap-southeast-1", "ap-southeast-2",
    "sa-east-1"
  ]

  const InstanceDataDir: string := "instances"
  const VolumeDataDir: string := "volumes"

  // ---------------------------------------------------------------------------
  // Records

  /** An instance as the provider's API describes it. */
  datatype ProviderInstance = ProviderInstance(id: string, state: string, instanceType: string)

  /** The attachment data of a provider volume; its instance id is None for a detached volume. */
  datatype AttachData = AttachData(instanceId: Option<string>)

  /** A volume as the provider's API describes it; size in GB. */
  datatype ProviderVolume = ProviderVolume(id: string, status: string, size: int, volumeType: string, attachData: Option<AttachData>)

  datatype EC2Instance = EC2Instance(id: string, state: string, instanceType: string)

  /** An EBS volume; instanceId is "" for a volume attached to no instance. */
  datatype EBSVolume = EBSVolume(id: string, status: string, size: int, volumeType: string, instanceId: string)

  /** What the snapshot files hold: lists of either kind of record. */
  datatype Record = Instance(instance: EC2Instance) | Volume(volume: EBSVolume)

  /** `volume.attach_data and volume.attach_data.instance_id` is true: an attachment naming a non-empty id. */
  predicate Attached(v: ProviderVolume) {
    v.attachData.Some? && v.attachData.value.instanceId.Some? && v.attachData.value.instanceId.value != ""
  }

  function ToInstance(p: ProviderInstance): EC2Instance {
    EC2Instance(p.id, p.state, p.instanceType)
  }

  function ToVolume(v: ProviderVolume, instanceId: string): EBSVolume {
    EBSVolume(v.id, v.status, v.size, v.volumeType, instanceId)
  }

  function InstanceRecords(xs: seq<EC2Instance>): (rs: seq<Record>)
    ensures |rs| == |xs| && forall i | 0 <= i < |xs| :: rs[i] == Instance(xs[i])
  {
    seq(|xs|, i requires 0 <= i < |xs| => Instance(xs[i]))
  }

  function VolumeRecords(xs: seq<EBSVolume>): (rs: seq<Record>)
    ensures |rs| == |xs| && forall i | 0 <= i < |xs| :: rs[i] == Volume(xs[i])
  {
    seq(|xs|, i requires 0 <= i < |xs| => Volume(xs[i]))
  }

  // ---------------------------------------------------------------------------
  // get_instances

  /**
   * The loop of get_instances (aws_poller/__main__.py:273-281): one
   * EC2Instance per provider instance, in the provider's order.
   */
  method GetInstances(found: seq<ProviderInstance>) returns (all: seq<EC2Instance>)
    ensures |all| == |found|
    ensures forall i | 0 <= i < |found| ::
              all[i].id == found[i].id && all[i].state == found[i].state && all[i].instanceType == found[i].instanceType
  {
    all := [];
    for i := 0 to |found|
      invariant |all| == i
      invariant forall k | 0 <= k < i :: all[k] == ToInstance(found[k])
    {
      all := all + [ToInstance(found[i])];
    }
  }

  // ---------------------------------------------------------------------------
  // get_volumes

  /**
   * The volumes get_volumes evidently means to return: every attached volume
   * with its instance id and, when rogue volumes are included, every other
   * volume with the instance id "", in the provider's order.
   */
  function Volumes(found: seq<ProviderVolume>, includeRogue: bool): seq<EBSVolume>
    decreases |found|
  {
    if found == [] then []
    else
      var v := found[|found| - 1];
      Volumes(found[..|found| - 1], includeRogue)
        + if Attached(v) then [ToVolume(v, v.attachData.value.instanceId.value)]
          else if includeRogue then [ToVolume(v, "")]
          else []
  }

  /** The corrected loop of get_volumes: unattached volumes are skipped unless rogue volumes are included. */
  method GetVolumes(found: seq<ProviderVolume>, includeRogue: bool) returns (all: seq<EBSVolume>)
    ensures all == Volumes(found, includeRogue)
  {
    all := [];
    for i := 0 to |found|
      invariant all == Volumes(found[..i], includeRogue)
    {
      var v := found[i];
      assert found[..i + 1][..i] == found[..i];
      if Attached(v) {
        all := all + [ToVolume(v, v.attachData.value.instanceId.value)];
      } else if includeRogue {
        all := all + [ToVolume(v, "")];
      }
    }
    assert found[..|found|] == found;
  }

  /** The volumes attached to an instance, in order. */
  function AttachedOnly(found: seq<ProviderVolume>): (r: seq<ProviderVolume>)
    ensures forall i | 0 <= i < |r| :: Attached(r[i])
    decreases |found|
  {
    if found == [] then []
    else
      var v := found[|found| - 1];
      AttachedOnly(found[..|found| - 1]) + if Attached(v) then [v] else []
  }

  /**
   * With rogue volumes included, get_volumes maps the provider's volumes one
   * for one and in order, each carrying its attachment's instance id, or ""
   * when it has none.
   */
  lemma {:induction false} RogueIncludedIsOneForOne(found: seq<ProviderVolume>)
    ensures var vs := Volumes(found, true);
            && |vs| == |found|
            && forall i | 0 <= i < |found| ::
                 && vs[i].id == found[i].id && vs[i].status == found[i].status
                 && vs[i].size == found[i].size && vs[i].volumeType == found[i].volumeType
                 && vs[i].instanceId == (if Attached(found[i]) then found[i].attachData.value.instanceId.value else "")
    decreases |found|
  {
    if found != [] {
      var n := |found| - 1;
      RogueIncludedIsOneForOne(found[..n]);
      var vs := Volumes(found, true);
      forall i | 0 <= i < n
        ensures vs[i] == Volumes(found[..n], true)[i] && found[i] == found[..n][i]
      {
      }
    }
  }

  /**
   * Without rogue volumes, get_volumes returns what it returns with them for
   * the attached volumes alone, so every record names a non-empty instance.
   */
  lemma {:induction false} RogueExcludedKeepsAttached(found: seq<ProviderVolume>)
    ensures Volumes(found, false) == Volumes(AttachedOnly(found), true)
    ensures forall i | 0 <= i < |Volumes(found, false)| :: Volumes(found, false)[i].instanceId != ""
    decreases |found|
  {
    if found != [] {
      var n := |found| - 1;
      var v := found[n];
      RogueExcludedKeepsAttached(found[..n]);
      var before := AttachedOnly(found[..n]);
      if Attached(v) {
        assert AttachedOnly(found) == before + [v];
        assert (before + [v])[..|before|] == before;
        assert Volumes(before + [v], true) == Volumes(before, true) + [ToVolume(v, v.attachData.value.instanceId.value)];
      } else {
        assert AttachedOnly(found) == before;
      }
    }
  }

  /** What get_volumes raises as written. */
  datatype PyError = AttributeError | UnboundLocalError

  /**
   * One pass of the loop of get_volumes as written
   * (aws_poller/__main__.py:254-262). `flag` is the poller's
   * include_rogue_volumes attribute, None when it is missing; `stale` is the
   * value new_volume holds from the pass before, None before the first
   * assignment. The value appended is the new volume, or a stale one when
   * neither branch assigned it.
   */
  function AsWrittenStep(v: ProviderVolume, flag: Option<bool>, stale: Option<EBSVolume>): Result<EBSVolume, PyError> {
    if Attached(v) then Ok(ToVolume(v, v.attachData.value.instanceId.value))
    else if flag.None? then Err(AttributeError)
    else if flag.value then Ok(ToVolume(v, ""))
    else if stale.None? then Err(UnboundLocalError)
    else Ok(stale.value)
  }

  /** get_volumes as written: the first exception raised, or the list built. */
  function VolumesAsWritten(found: seq<ProviderVolume>, flag: Option<bool>): Result<seq<EBSVolume>, PyError>
    decreases |found|
  {
    if found == [] then Ok([])
    else
      match VolumesAsWritten(found[..|found| - 1], flag)
      case Err(e) => Err(e)
      case Ok(before) =>
        var stale := if before == [] then None else Some(before[|before| - 1]);
        match AsWrittenStep(found[|found| - 1], flag, stale)
        case Err(e) => Err(e)
        case Ok(x) => Ok(before + [x])
  }

  /** Once get_volumes has raised on a prefix of the volumes, it raises the same on the whole list. */
  lemma {:induction false} AsWrittenErrorSticks(found: seq<ProviderVolume>, flag: Option<bool>, i: nat)
    requires i <= |found| && VolumesAsWritten(found[..i], flag).Err?
    ensures VolumesAsWritten(found, flag) == VolumesAsWritten(found[..i], flag)
    decreases |found|
  {
    if i == |found| {
      assert found[..i] == found;
    } else {
      var n := |found| - 1;
      assert found[..n][..i] == found[..i];
      AsWrittenErrorSticks(found[..n], flag, i);
    }
  }

  /** The loop of get_volumes as written (aws_poller/__main__.py:251-264). */
  method GetVolumesAsWritten(found: seq<ProviderVolume>, flag: Option<bool>) returns (r: Result<seq<EBSVolume>, PyError>)
    ensures r == VolumesAsWritten(found, flag)
  {
    var all: seq<EBSVolume> := [];
    var newVolume: Option<EBSVolume> := None;
    for i := 0 to |found|
      invariant VolumesAsWritten(found[..i], flag) == Ok(all)
      invariant newVolume == if all == [] then None else Some(all[|all| - 1])
    {
      var v := found[i];
      assert found[..i + 1][..i] == found[..i];
      if Attached(v) {
        newVolume := Some(ToVolume(v, v.attachData.value.instanceId.value));
      } else if flag.None? {
        AsWrittenErrorSticks(found, flag, i + 1);
        return Err(AttributeError);
      } else if flag.value {
        newVolume := Some(ToVolume(v, ""));
      }
      if newVolume.None? {
        AsWrittenErrorSticks(found, flag, i + 1);
        return Err(UnboundLocalError);
      }
      all := all + [newVolume.value];
    }
    assert found[..|found|] == found;
    return Ok(all);
  }

  /** When every volume is attached, get_volumes as written agrees with the corrected version. */
  lemma {:induction false} AsWrittenAgreesWhenAllAttached(found: seq<ProviderVolume>, flag: Option<bool>, includeRogue: bool)
    requires forall i | 0 <= i < |found| :: Attached(found[i])
    ensures VolumesAsWritten(found, flag) == Ok(Volumes(found, includeRogue))
    decreases |found|
  {
    if found != [] {
      var n := |found| - 1;
      assert forall i | 0 <= i < n :: found[..n][i] == found[i];
      AsWrittenAgreesWhenAllAttached(found[..n], flag, includeRogue);
    }
  }

  /**
   * The region poller never sets include_rogue_volumes, so as written any
   * unattached volume makes get_volumes raise AttributeError.
   */
  lemma {:induction false} AsWrittenRaisesOnUnattached(found: seq<ProviderVolume>, i: nat)
    requires i < |found| && !Attached(found[i])
    ensures VolumesAsWritten(found, None) == Err(AttributeError)
    decreases |found|
  {
    var n := |found| - 1;
    if i < n {
      assert found[..n][i] == found[i];
      AsWrittenRaisesOnUnattached(found[..n], i);
    } else {
      AsWrittenNeverUnbound(found[..n]);
    }
  }

  /** Without the attribute, the only exception get_volumes can raise is AttributeError. */
  lemma {:induction false} AsWrittenNeverUnbound(found: seq<ProviderVolume>)
    ensures VolumesAsWritten(found, None) == Err(AttributeError) || VolumesAsWritten(found, None).Ok?
    decreases |found|
  {
    if found != [] {
      AsWrittenNeverUnbound(found[..|found| - 1]);
    }
  }

  /**
   * Were the attribute set to false, an unattached volume after an attached
   * one would append the attached one a second time, where the evident
   * intent is to skip it.
   */
  lemma StaleVolumeAppended()
    ensures var a := ProviderVolume("vol-a", "in-use", 8, "gp2", Some(AttachData(Some("i-1"))));
            var b := ProviderVolume("vol-b", "available", 8, "gp2", None);
            && VolumesAsWritten([a, b], Some(false)) == Ok([ToVolume(a, "i-1"), ToVolume(a, "i-1")])
            && Volumes([a, b], false) == [ToVolume(a, "i-1")]
  {
    var a := ProviderVolume("vol-a", "in-use", 8, "gp2", Some(AttachData(Some("i-1"))));
    var b := ProviderVolume("vol-b", "available", 8, "gp2", None);
    assert [a, b][..1] == [a];
    assert [a][..0] == [];
    assert Attached(a) && !Attached(b);
    var empty: seq<ProviderVolume> := [];
    assert VolumesAsWritten(empty, Some(false)) == Ok([]);
    assert AsWrittenStep(a, Some(false), None) == Ok(ToVolume(a, "i-1"));
    var va := ToVolume(a, "i-1");
    assert [] + [va] == [va] && [va][0] == va;
    assert VolumesAsWritten([a], Some(false)) == Ok([va]);
    assert AsWrittenStep(b, Some(false), Some(va)) == Ok(va);
    assert [va] + [va] == [va, va];
    assert Volumes([a], false) == [ToVolume(a, "i-1")];
  }

  /** And an unattached first volume would raise UnboundLocalError. */
  lemma UnattachedFirstIsUnbound()
    ensures VolumesAsWritten([ProviderVolume("vol-b", "available", 8, "gp2", None)], Some(false)) == Err(UnboundLocalError)
  {
    assert [ProviderVolume("vol-b", "available", 8, "gp2", None)][..0] == [];
  }

  // ---------------------------------------------------------------------------
  // Region poller

  /** What one provider call returned, or that it raised. */
  type Answer<T> = Fetch<seq<T>>

  /**
   * An AWSRegionPoller: where its snapshots live and whether it is forced to
   * poll. The corrected poller also carries include_rogue_volumes.
   */
  datatype RegionPoller = RegionPoller(regionName: string, forceGrab: bool, includeRogueVolumes: bool, resultsDir: Path)

  /** The directory of a region poller: base/ident/region. */
  function EnvPath(base: Path, ident: string, region: string): (p: Path)
    ensures |p| == |base| + 2 && p[..|base|] == base
  {
    base + [ident, region]
  }

  /**
   * The constructor of AWSRegionPoller (aws_poller/__main__.py:217-242): makes
   * sure of base/ident/region and its instances and volumes directories.
   * The base directory is a parameter (see README).
   */
  method NewRegionPoller<R>(fs: FileSystem<seq<R>>, base: Path, ident: string, region: string, force: bool, includeRogue: bool)
    returns (r: Result<RegionPoller, OsError>)
    requires fs.tree.Valid()
    modifies fs
    ensures fs.tree.Valid()
    ensures var (made, t) := SetupDirOutcome(old(fs.tree), EnvPath(base, ident, region), [InstanceDataDir, VolumeDataDir]);
            && fs.tree == t
            && (made.Err? ==> r == Err(made.error))
            && (made.Ok? ==> r == Ok(RegionPoller(region, force, includeRogue, EnvPath(base, ident, region))))
  {
    var env := EnvPath(base, ident, region);
    var made := SetupDir(fs, env, [InstanceDataDir, VolumeDataDir]);
    if made.Err? {
      return Err(made.error);
    }
    return Ok(RegionPoller(region, force, includeRogue, env));
  }

  /** What get_instances hands to track_results. */
  function InstancesFetch(answer: Answer<ProviderInstance>): Fetch<seq<Record>> {
    match answer
    case Raised => Raised
    case Fetched(found) => Fetched(InstanceRecords(seq(|found|, i requires 0 <= i < |found| => ToInstance(found[i]))))
  }

  /** What the corrected get_volumes hands to track_results. */
  function VolumesFetch(answer: Answer<ProviderVolume>, includeRogue: bool): Fetch<seq<Record>> {
    match answer
    case Raised => Raised
    case Fetched(found) => Fetched(VolumeRecords(Volumes(found, includeRogue)))
  }

  /** get_instances through track_results (aws_poller/__main__.py:266-281), at clock reading now. */
  method PollInstances(fs: FileSystem<seq<Record>>, p: RegionPoller, answer: Answer<ProviderInstance>, now: int)
    returns (r: Result<seq<Record>, OsError>)
    requires fs.tree.Valid()
    modifies fs
    ensures fs.tree.Valid()
    ensures (r, fs.tree) == Track(old(fs.tree), p.resultsDir + [InstanceDataDir], Freshness, p.forceGrab, now, InstancesFetch(answer))
  {
    var fetch: Fetch<seq<Record>> := Raised;
    if answer.Fetched? {
      var all := GetInstances(answer.value);
      assert all == seq(|answer.value|, i requires 0 <= i < |answer.value| => ToInstance(answer.value[i]));
      fetch := Fetched(InstanceRecords(all));
    }
    r := TrackResults(fs, p.resultsDir, InstanceDataDir, Freshness, p.forceGrab, now, fetch);
  }

  /** The corrected get_volumes through track_results (aws_poller/__main__.py:244-264), at clock reading now. */
  method PollVolumes(fs: FileSystem<seq<Record>>, p: RegionPoller, answer: Answer<ProviderVolume>, now: int)
    returns (r: Result<seq<Record>, OsError>)
    requires fs.tree.Valid()
    modifies fs
    ensures fs.tree.Valid()
    ensures (r, fs.tree) == Track(old(fs.tree), p.resultsDir + [VolumeDataDir], Freshness, p.forceGrab, now, VolumesFetch(answer, p.includeRogueVolumes))
  {
    var fetch: Fetch<seq<Record>> := Raised;
    if answer.Fetched? {
      var all := GetVolumes(answer.value, p.includeRogueVolumes);
      fetch := Fetched(VolumeRecords(all));
    }
    r := TrackResults(fs, p.resultsDir, VolumeDataDir, Freshness, p.forceGrab, now, fetch);
  }

  /**
   * What get_volumes as written hands to track_results: the provider's
   * exception, or one raised inside the loop, reaches the wrapper as a
   * raising fetch.
   */
  function VolumesFetchAsWritten(answer: Answer<ProviderVolume>, flag: Option<bool>): Fetch<seq<Record>> {
    match answer
    case Raised => Raised
    case Fetched(found) =>
      match VolumesAsWritten(found, flag)
      case Err(_) => Raised
      case Ok(vs) => Fetched(VolumeRecords(vs))
  }

  /**
   * The decorated get_volumes as written: its AttributeError is caught by
   * track_results, so on the refresh path a region with any unattached
   * volume reports no volumes at all and writes nothing.
   */
  lemma AsWrittenPollDropsAllVolumes(t: Tree<seq<Record>>, p: RegionPoller, found: seq<ProviderVolume>, i: nat, now: int)
    requires t.Valid() && i < |found| && !Attached(found[i])
    requires p.resultsDir + [VolumeDataDir] in t.dirs
    requires Decide(p.forceGrab, Latest(t.Entries(p.resultsDir + [VolumeDataDir])), now, Freshness) == Refresh
    ensures Track(t, p.resultsDir + [VolumeDataDir], Freshness, p.forceGrab, now, VolumesFetchAsWritten(Fetched(found), None)) == (Ok([]), t)
  {
    AsWrittenRaisesOnUnattached(found, i);
    assert VolumesFetchAsWritten(Fetched(found), None) == Raised;
    RaisedWritesNothing(t, p.resultsDir + [VolumeDataDir], Freshness, p.forceGrab, now);
  }

  // ---------------------------------------------------------------------------
  // Factory and run

  /** An AWSRegionPollerFactory; the credentials are left out but for the access key id, which names the results. */
  datatype Factory = Factory(accessKeyId: string, regions: seq<string>, includeRogueVolumes: bool, forceGrab: bool)

  /**
   * The constructor of AWSRegionPollerFactory (aws_poller/__main__.py:144-175):
   * all regions unless some are given, and the results tree set up for the
   * access key id under the default results directory.
   */
  method NewFactory<R>(fs: FileSystem<seq<R>>, accessKeyId: string, regions: Option<seq<string>>, includeRogue: bool, force: bool)
    returns (r: Result<Factory, OsError>)
    requires fs.tree.Valid()
    modifies fs
    ensures fs.tree.Valid()
    ensures var (made, t) := SetupDirOutcome(old(fs.tree), DefaultRootResultsDir, [accessKeyId]);
            && fs.tree == t
            && (made.Err? ==> r == Err(made.error))
            && (made.Ok? ==> r == Ok(Factory(accessKeyId, regions.GetOr(AllRegions), includeRogue, force)))
  {
    var made := SetupEnv(fs, accessKeyId, None);
    if made.Err? {
      return Err(made.error);
    }
    return Ok(Factory(accessKeyId, regions.GetOr(AllRegions), includeRogue, force));
  }

  /** What the provider answered for one region, and the clock reading of each cached call. */
  datatype RegionAnswers = RegionAnswers(
    instances: Answer<ProviderInstance>, instancesNow: int,
    volumes: Answer<ProviderVolume>, volumesNow: int)

  /** The pair run returns. */
  datatype Polled = Polled(volumes: seq<Record>, instances: seq<Record>)

  /** One pass of run's loop: build the region poller, then get its instances, then its volumes. */
  ghost function RegionStep(t: Tree<seq<Record>>, f: Factory, base: Path, region: string, a: RegionAnswers): (Result<Polled, OsError>, Tree<seq<Record>>) {
    var env := EnvPath(base, f.accessKeyId, region);
    var (made, t1) := SetupDirOutcome(t, env, [InstanceDataDir, VolumeDataDir]);
    if made.Err? then (Err(made.error), t1)
    else
      var (insts, t2) := Track(t1, env + [InstanceDataDir], Freshness, f.forceGrab, a.instancesNow, InstancesFetch(a.instances));
      if insts.Err? then (Err(insts.error), t2)
      else
        var (vols, t3) := Track(t2, env + [VolumeDataDir], Freshness, f.forceGrab, a.volumesNow, VolumesFetch(a.volumes, f.includeRogueVolumes));
        if vols.Err? then (Err(vols.error), t3)
        else (Ok(Polled(vols.value, insts.value)), t3)
  }

  /** One pass of a loop over regions: the state before, the region and its answers, to the outcome and the state after. */
  type Step = (Tree<seq<Record>>, string, RegionAnswers) -> (Result<Polled, OsError>, Tree<seq<Record>>)

  /** A loop over regions that stops at the first error and concatenates the lists in region order. */
  ghost function Fold(step: Step, t: Tree<seq<Record>>, regions: seq<string>, answers: seq<RegionAnswers>): (Result<Polled, OsError>, Tree<seq<Record>>)
    requires |answers| == |regions|
    decreases |regions|
  {
    if regions == [] then (Ok(Polled([], [])), t)
    else
      var n := |regions| - 1;
      var (before, t1) := Fold(step, t, regions[..n], answers[..n]);
      if before.Err? then (before, t1)
      else
        var (now, t2) := step(t1, regions[n], answers[n]);
        if now.Err? then (now, t2)
        else (Ok(Polled(before.value.volumes + now.value.volumes, before.value.instances + now.value.instances)), t2)
  }

  ghost function RunStep(f: Factory, base: Path): Step {
    (t, region, a) => RegionStep(t, f, base, region, a)
  }

  /** run over the given regions. */
  ghost function RunSpec(t: Tree<seq<Record>>, f: Factory, base: Path, regions: seq<string>, answers: seq<RegionAnswers>): (Result<Polled, OsError>, Tree<seq<Record>>)
    requires |answers| == |regions|
  {
    Fold(RunStep(f, base), t, regions, answers)
  }

  /** One more region after a prefix of them that succeeded. */
  lemma RunSpecStep(t0: Tree<seq<Record>>, f: Factory, base: Path, regions: seq<string>, answers: seq<RegionAnswers>, i: nat, acc: Polled, t1: Tree<seq<Record>>)
    requires |answers| == |regions| && i < |regions|
    requires RunSpec(t0, f, base, regions[..i], answers[..i]) == (Ok(acc), t1)
    ensures var (res, t2) := RegionStep(t1, f, base, regions[i], answers[i]);
            RunSpec(t0, f, base, regions[..i + 1], answers[..i + 1]) ==
              if res.Err? then (res, t2)
              else (Ok(Polled(acc.volumes + res.value.volumes, acc.instances + res.value.instances)), t2)
  {
    assert regions[..i + 1][..i] == regions[..i] && answers[..i + 1][..i] == answers[..i];
  }

  /** Once the loop over regions has failed on a prefix of them, the whole loop fails the same way. */
  lemma {:induction false} FoldErrorSticks(step: Step, t: Tree<seq<Record>>, regions: seq<string>, answers: seq<RegionAnswers>, i: nat)
    requires |answers| == |regions| && i <= |regions|
    requires Fold(step, t, regions[..i], answers[..i]).0.Err?
    ensures Fold(step, t, regions, answers) == Fold(step, t, regions[..i], answers[..i])
    decreases |regions|
  {
    if i == |regions| {
      assert regions[..i] == regions && answers[..i] == answers;
    } else {
      var n := |regions| - 1;
      assert regions[..n][..i] == regions[..i] && answers[..n][..i] == answers[..i];
      FoldErrorSticks(step, t, regions[..n], answers[..n], i);
    }
  }

  /**
   * One pass of run's loop (aws_poller/__main__.py:205-209): the region's
   * poller, then its instances, then its volumes; the first error ends it.
   */
  method PollRegion(fs: FileSystem<seq<Record>>, f: Factory, base: Path, region: string, a: RegionAnswers) returns (r: Result<Polled, OsError>)
    requires fs.tree.Valid()
    modifies fs
    ensures fs.tree.Valid()
    ensures (r, fs.tree) == RegionStep(old(fs.tree), f, base, region, a)
  {
    var poller := NewRegionPoller(fs, base, f.accessKeyId, region, f.forceGrab, f.includeRogueVolumes);
    if poller.Err? {
      return Err(poller.error);
    }
    var insts := PollInstances(fs, poller.value, a.instances, a.instancesNow);
    if insts.Err? {
      return Err(insts.error);
    }
    var vols := PollVolumes(fs, poller.value, a.volumes, a.volumesNow);
    if vols.Err? {
      return Err(vols.error);
    }
    return Ok(Polled(vols.value, insts.value));
  }

  /**
   * AWSRegionPollerFactory.run (aws_poller/__main__.py:192-211), with the
   * corrected get_volumes. `answers[i]` is what the provider answers for the
   * i-th region.
   */
  method Run(fs: FileSystem<seq<Record>>, f: Factory, base: Path, answers: seq<RegionAnswers>) returns (r: Result<Polled, OsError>)
    requires fs.tree.Valid() && |answers| == |f.regions|
    modifies fs
    ensures fs.tree.Valid()
    ensures (r, fs.tree) == RunSpec(old(fs.tree), f, base, f.regions, answers)
  {
    ghost var t0 := fs.tree;
    var allInstances: seq<Record> := [];
    var allVolumes: seq<Record> := [];
    for i := 0 to |f.regions|
      invariant fs.tree.Valid()
      invariant RunSpec(t0, f, base, f.regions[..i], answers[..i]) == (Ok(Polled(allVolumes, allInstances)), fs.tree)
    {
      RunSpecStep(t0, f, base, f.regions, answers, i, Polled(allVolumes, allInstances), fs.tree);
      var polled := PollRegion(fs, f, base, f.regions[i], answers[i]);
      if polled.Err? {
        FoldErrorSticks(RunStep(f, base), t0, f.regions, answers, i + 1);
        return Err(polled.error);
      }
      allInstances := allInstances + polled.value.instances;
      allVolumes := allVolumes + polled.value.volumes;
    }
    assert f.regions[..|f.regions|] == f.regions && answers[..|answers|] == answers;
    return Ok(Polled(allVolumes, allInstances));
  }

  /**
   * A loop over regions a then b is the loop over a, then the loop over b
   * from the state a left, with the lists of a followed by those of b; the
   * first error ends it.
   */
  lemma {:induction false} FoldConcat(step: Step, t: Tree<seq<Record>>, a: seq<string>, b: seq<string>, answersA: seq<RegionAnswers>, answersB: seq<RegionAnswers>)
    requires |answersA| == |a| && |answersB| == |b|
    ensures var (ra, ta) := Fold(step, t, a, answersA);
            Fold(step, t, a + b, answersA + answersB) ==
              if ra.Err? then (ra, ta)
              else
                var (rb, tb) := Fold(step, ta, b, answersB);
                if rb.Err? then (rb, tb)
                else (Ok(Polled(ra.value.volumes + rb.value.volumes, ra.value.instances + rb.value.instances)), tb)
    decreases |b|
  {
    if b == [] {
      assert a + b == a && answersA + answersB == answersA;
      var (ra, ta) := Fold(step, t, a, answersA);
      if ra.Ok? {
        assert ra.value.volumes + [] == ra.value.volumes && ra.value.instances + [] == ra.value.instances;
      }
    } else {
      var n := |b| - 1;
      var ab, answersAB := a + b, answersA + answersB;
      assert ab[..|ab| - 1] == a + b[..n];
      assert answersAB[..|ab| - 1] == answersA + answersB[..n];
      assert ab[|ab| - 1] == b[n] && answersAB[|ab| - 1] == answersB[n];
      FoldConcat(step, t, a, b[..n], answersA, answersB[..n]);
      var (ra, ta) := Fold(step, t, a, answersA);
      if ra.Ok? {
        var (rb, tb) := Fold(step, ta, b[..n], answersB[..n]);
        if rb.Ok? {
          var (rn, tn) := step(tb, b[n], answersB[n]);
          if rn.Ok? {
            assert ra.value.volumes + (rb.value.volumes + rn.value.volumes) == (ra.value.volumes + rb.value.volumes) + rn.value.volumes;
            assert ra.value.instances + (rb.value.instances + rn.value.instances) == (ra.value.instances + rb.value.instances) + rn.value.instances;
          }
        }
      }
    }
  }

  /**
   * run returns, for each list, the concatenation of what each region
   * returned, in the order of the factory's regions.
   */
  lemma RunConcat(t: Tree<seq<Record>>, f: Factory, base: Path, a: seq<string>, b: seq<string>, answersA: seq<RegionAnswers>, answersB: seq<RegionAnswers>)
    requires |answersA| == |a| && |answersB| == |b|
    ensures var (ra, ta) := RunSpec(t, f, base, a, answersA);
            RunSpec(t, f, base, a + b, answersA + answersB) ==
              if ra.Err? then (ra, ta)
              else
                var (rb, tb) := RunSpec(ta, f, base, b, answersB);
                if rb.Err? then (rb, tb)
                else (Ok(Polled(ra.value.volumes + rb.value.volumes, ra.value.instances + rb.value.instances)), tb)
  {
    FoldConcat(RunStep(f, base), t, a, b, answersA, answersB);
  }
}
