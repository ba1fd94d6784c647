/*
 * The report: each EBS volume joined with the EC2 instance it names, one
 * row per volume in the order of the volumes (output_to_table in
 * aws_poller/__main__.py). Rendering the rows as a table is not modelled;
 * the rows themselves are.
 */
module Report {
  import opened Poller

  /** What the three instance columns hold when no instance has the volume's instance id. */
  const MissingText := "NOT FOUND"

  /** One row of the table: three instance columns, then three volume columns. */
  datatype Row = Row(instanceId: string, instanceType: string, instanceState: string,
                     volumeId: string, volumeStatus: string, volumeSize: int)

  /** i is the last position of an instance with this id. */
  predicate LastWith(instances: seq<EC2Instance>, id: string, i: int) {
    0 <= i < |instances| && instances[i].id == id &&
    forall j | i < j < |instances| :: instances[j].id != id
  }

  /**
   * The instances keyed by id, built in order, so that of two instances
   * with the same id the later one is kept.
   */
  function InstanceIndex(instances: seq<EC2Instance>): (index: map<string, EC2Instance>)
    ensures forall id | id in index :: index[id].id == id
    decreases |instances|
  {
    if instances == [] then map[]
    else
      var n := |instances| - 1;
      InstanceIndex(instances[..n])[instances[n].id := instances[n]]
  }

  /**
   * An id is a key of the index exactly when some instance has it, and it
   * then maps to the last instance with that id.
   */
  lemma {:induction false} IndexFindsLast(instances: seq<EC2Instance>, id: string)
    ensures id !in InstanceIndex(instances) <==> forall i | 0 <= i < |instances| :: instances[i].id != id
    ensures id in InstanceIndex(instances) ==>
              exists i :: LastWith(instances, id, i) && InstanceIndex(instances)[id] == instances[i]
    decreases |instances|
  {
    if instances != [] {
      var n := |instances| - 1;
      var front := instances[..n];
      IndexFindsLast(front, id);
      assert forall i | 0 <= i < n :: front[i] == instances[i];
      if instances[n].id == id {
        assert LastWith(instances, id, n);
      } else if id in InstanceIndex(front) {
        var i :| LastWith(front, id, i) && InstanceIndex(front)[id] == front[i];
        assert LastWith(instances, id, i);
      }
    }
  }

  /**
   * The row the report promises for volume v: the volume's id, status and
   * size; and the id, type and state of the last instance whose id is the
   * volume's instance id, or MissingText in all three when there is none.
   */
  ghost predicate RowFor(row: Row, v: EBSVolume, instances: seq<EC2Instance>) {
    && row.volumeId == v.id && row.volumeStatus == v.status && row.volumeSize == v.size
    && ((forall i | 0 <= i < |instances| :: instances[i].id != v.instanceId) ==>
          row.instanceId == MissingText && row.instanceType == MissingText && row.instanceState == MissingText)
    && (forall i | LastWith(instances, v.instanceId, i) ::
          row.instanceId == instances[i].id && row.instanceType == instances[i].instanceType &&
          row.instanceState == instances[i].state)
  }

  /** The row for v, looked up in the index. */
  function JoinRow(v: EBSVolume, index: map<string, EC2Instance>): (row: Row)
    ensures row.volumeId == v.id && row.volumeStatus == v.status && row.volumeSize == v.size
    ensures v.instanceId in index ==>
              && row.instanceId == index[v.instanceId].id
              && row.instanceType == index[v.instanceId].instanceType
              && row.instanceState == index[v.instanceId].state
    ensures v.instanceId !in index ==> row.instanceId == row.instanceType == row.instanceState == MissingText
  {
    if v.instanceId in index then
      var inst := index[v.instanceId];
      Row(inst.id, inst.instanceType, inst.state, v.id, v.status, v.size)
    else
      Row(MissingText, MissingText, MissingText, v.id, v.status, v.size)
  }

  /** Looking a volume up in the index of the instances gives the row the report promises. */
  lemma JoinRowIsRowFor(v: EBSVolume, instances: seq<EC2Instance>)
    ensures RowFor(JoinRow(v, InstanceIndex(instances)), v, instances)
  {
    IndexFindsLast(instances, v.instanceId);
  }

  /**
   * output_to_table without the rendering: one row per volume, in the
   * order of the volumes, each the row the report promises.
   */
  method OutputToTable(volumes: seq<EBSVolume>, instances: seq<EC2Instance>) returns (rows: seq<Row>)
    ensures |rows| == |volumes|
    ensures forall i | 0 <= i < |rows| :: RowFor(rows[i], volumes[i], instances)
  {
    var index := InstanceIndex(instances);
    rows := [];
    for i := 0 to |volumes|
      invariant |rows| == i
      invariant forall j | 0 <= j < i :: RowFor(rows[j], volumes[j], instances)
    {
      JoinRowIsRowFor(volumes[i], instances);
      rows := rows + [JoinRow(volumes[i], index)];
    }
  }
}
