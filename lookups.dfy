/** bucketId, commandId and clusterId, the table lookups of alloc, on the
    tables as values; and the proof that one alloc keeps the four tables
    consistent. */
module Lookups {
  import opened Types
  import opened Pipelines
  import opened DrawTables
  import opened DrawInvariants

  /** A device call the storage issues, recorded in a ghost log. */
  datatype GpuCall =
    | Descriptors(pipeline: Pipeline)
    | WaitIdle
    | Provision(clusters: seq<Cluster>, totalPayload: nat, indirect: seq<IndirectCmd>)
      /** An InstanceDesc holding `pos` written into the instance slot. */
    | InstanceWrite(slot: Option<nat>, pos: Matrix)

  /** The command a new (colour, depth) pair gets. */
  function NewCommand(pc: Option<Pipeline>, pd: Option<Pipeline>, t: ObjType, m: Material): DrawCmd
  {
    DrawCmd(pc, pd, 0, t, BindingsFor(pc, pd), m.alpha, 0, 0)
  }

  /** The descriptor sets a new command allocates: one for V_Main from the
      colour pipeline, one each for V_Shadow0 and V_Shadow1 from the depth
      pipeline. */
  function DescriptorCalls(pc: Option<Pipeline>, pd: Option<Pipeline>): seq<GpuCall>
  {
    (if pc.Some? then [Descriptors(pc.value)] else [])
    + (if pd.Some? then [Descriptors(pd.value), Descriptors(pd.value)] else [])
  }

  /** bucketId's outcome: `b` is the first bucket of (mesh, mat) in the
      new table, which grew by that bucket only when there was none. */
  ghost predicate BucketFound(bks: seq<Bucket>, mesh: MeshRef, mat: Material, b: nat, bks': seq<Bucket>)
  {
    && b <= |bks| && b < |bks'| && bks'[b] == Bucket(mesh, mat)
    && (forall k :: 0 <= k < b ==> bks[k] != Bucket(mesh, mat))
    && (b < |bks| ==> bks' == bks)
    && (b == |bks| ==> bks' == bks + [Bucket(mesh, mat)])
  }

  method BucketId(bks: seq<Bucket>, mat: Material, mesh: MeshRef) returns (b: nat, bks': seq<Bucket>)
    ensures BucketFound(bks, mesh, mat, b, bks')
  {
    var i := 0;
    while i < |bks|
      invariant 0 <= i <= |bks|
      invariant forall k :: 0 <= k < i ==> bks[k] != Bucket(mesh, mat)
    {
      if bks[i].mesh == mesh && bks[i].mat == mat {
        return i, bks;
      }
      i := i + 1;
    }
    b, bks' := |bks|, bks + [Bucket(mesh, mat)];
  }

  /** A second lookup of the same key finds the same bucket and adds none. */
  lemma BucketIdStable(bks: seq<Bucket>, mesh: MeshRef, mat: Material, b: nat, bks': seq<Bucket>)
    requires BucketFound(bks, mesh, mat, b, bks')
    ensures BucketFound(bks', mesh, mat, b, bks')
  {
  }

  /** commandId's outcome: NoCommand exactly when neither pipeline
      exists; otherwise the first command of the pipeline pair, appended
      with fresh descriptor sets when there was none.  The table stays
      free of duplicate pairs. */
  ghost predicate CommandFound(cmds: seq<DrawCmd>, mat: Material, t: ObjType, c: nat, cmds': seq<DrawCmd>,
                               calls: seq<GpuCall>)
  {
    && CommandsInv(cmds')
    && (c == NoCommand <==> PipelineColor(mat, t).None? && PipelineDepth(mat, t).None?)
    && (c == NoCommand ==> cmds' == cmds && calls == [])
    && (c != NoCommand ==>
          && c <= |cmds| && c < |cmds'|
          && PairOf(cmds'[c]) == (PipelineColor(mat, t), PipelineDepth(mat, t))
          && (forall k :: 0 <= k < c ==> PairOf(cmds[k]) != PairOf(cmds'[c]))
          && (c < |cmds| ==> cmds' == cmds && calls == [])
          && (c == |cmds| ==>
                && cmds' == cmds + [NewCommand(PipelineColor(mat, t), PipelineDepth(mat, t), t, mat)]
                && calls == DescriptorCalls(PipelineColor(mat, t), PipelineDepth(mat, t))))
  }

  method CommandId(cmds: seq<DrawCmd>, mat: Material, t: ObjType) returns (c: nat, cmds': seq<DrawCmd>, calls: seq<GpuCall>)
    requires CommandsInv(cmds)
    ensures CommandFound(cmds, mat, t, c, cmds', calls)
  {
    var pMain := PipelineColor(mat, t);
    var pDepth := PipelineDepth(mat, t);
    if pMain.None? && pDepth.None? {
      return NoCommand, cmds, [];
    }
    CommandCountBound(cmds);
    var i := 0;
    while i < |cmds|
      invariant 0 <= i <= |cmds|
      invariant forall k :: 0 <= k < i ==> PairOf(cmds[k]) != (pMain, pDepth)
    {
      if cmds[i].psoColor == pMain && cmds[i].psoDepth == pDepth {
        return i, cmds, [];
      }
      i := i + 1;
    }
    PairValid(mat, t);
    c, cmds', calls := |cmds|, cmds + [NewCommand(pMain, pDepth, t, mat)], DescriptorCalls(pMain, pDepth);
  }

  /** A second lookup of the same pair finds the same command and adds
      none. */
  lemma CommandIdStable(cmds: seq<DrawCmd>, mat: Material, t: ObjType, c: nat, cmds': seq<DrawCmd>, calls: seq<GpuCall>)
    requires CommandsInv(cmds) && CommandFound(cmds, mat, t, c, cmds', calls)
    ensures CommandFound(cmds', mat, t, c, cmds', [])
  {
    if c != NoCommand {
      forall k | 0 <= k < c ensures PairOf(cmds'[k]) != PairOf(cmds'[c]) {
        assert cmds'[k] == cmds[k];
      }
    }
  }

  /** The single-meshlet clusters of a packed mesh: the loop of the packed
      clusterId, meshlet `first + i` with the precomputed bound `packed[i]`. */
  method PackedClusters(packed: seq<PackedCluster>, first: nat, count: nat, bucket: nat, c: nat)
      returns (extra: seq<Cluster>)
    requires count <= |packed|
    ensures |extra| == count
    ensures forall i :: 0 <= i < count ==>
      extra[i] == Cluster(packed[i].pos, packed[i].r, bucket, c, first + i, 1, NoInstance)
  {
    extra := [];
    var i := 0;
    while i < count
      invariant 0 <= i <= count && |extra| == i
      invariant forall k :: 0 <= k < i ==>
        extra[k] == Cluster(packed[k].pos, packed[k].r, bucket, c, first + k, 1, NoInstance)
    {
      extra := extra + [Cluster(packed[i].pos, packed[i].r, bucket, c, first + i, 1, NoInstance)];
      i := i + 1;
    }
  }

  /** The packed clusterId's outcome: NoCluster and no change for no
      command; otherwise `count` clusters appended at `r`, and command
      `c`'s payload grown by `count`. */
  ghost predicate PackedAdded(cl: seq<Cluster>, cmds: seq<DrawCmd>, packed: seq<PackedCluster>, first: nat, count: nat,
                              bucket: nat, c: nat, r: nat, cl': seq<Cluster>, cmds': seq<DrawCmd>)
  {
    && (c == NoCommand ==> r == NoCluster && cl' == cl && cmds' == cmds)
    && (c != NoCommand ==>
          && c < |cmds| && count <= |packed|
          && r == |cl| && |cl'| == |cl| + count && cl'[..r] == cl
          && (forall q :: r <= q < |cl'| ==>
                cl'[q] == Cluster(packed[q - r].pos, packed[q - r].r, bucket, c, first + (q - r), 1, NoInstance))
          && cmds' == cmds[c := cmds[c].(maxPayload := cmds[c].maxPayload + count)])
  }

  method ClusterIdPacked(cl: seq<Cluster>, cmds: seq<DrawCmd>, packed: seq<PackedCluster>, first: nat, count: nat,
                         bucket: nat, c: nat) returns (r: nat, cl': seq<Cluster>, cmds': seq<DrawCmd>)
    requires c == NoCommand || c < |cmds|
    requires c != NoCommand ==> count <= |packed|
    ensures PackedAdded(cl, cmds, packed, first, count, bucket, c, r, cl', cmds')
  {
    if c == NoCommand {
      return NoCluster, cl, cmds;
    }
    var extra := PackedClusters(packed, first, count, bucket, c);
    assert (cl + extra)[..|cl|] == cl;
    r, cl', cmds' := |cl|, cl + extra, cmds[c := cmds[c].(maxPayload := cmds[c].maxPayload + count)];
  }

  /** The bucket clusterId's outcome: one cluster for the whole slice,
      with the bucket's conservative radius. */
  ghost predicate BucketAdded(cl: seq<Cluster>, cmds: seq<DrawCmd>, radius: real, first: nat, count: nat,
                              bucket: nat, c: nat, r: nat, cl': seq<Cluster>, cmds': seq<DrawCmd>)
  {
    && (c == NoCommand ==> r == NoCluster && cl' == cl && cmds' == cmds)
    && (c != NoCommand ==>
          && c < |cmds| && r == |cl|
          && cl' == cl + [Cluster(Vec3(0.0, 0.0, 0.0), radius, bucket, c, first, count, NoInstance)]
          && cmds' == cmds[c := cmds[c].(maxPayload := cmds[c].maxPayload + count)])
  }

  method ClusterIdBucket(cl: seq<Cluster>, cmds: seq<DrawCmd>, radius: real, first: nat, count: nat,
                         bucket: nat, c: nat) returns (r: nat, cl': seq<Cluster>, cmds': seq<DrawCmd>)
    requires c == NoCommand || c < |cmds|
    ensures BucketAdded(cl, cmds, radius, first, count, bucket, c, r, cl', cmds')
  {
    if c == NoCommand {
      return NoCluster, cl, cmds;
    }
    r := |cl|;
    cl' := cl + [Cluster(Vec3(0.0, 0.0, 0.0), radius, bucket, c, first, count, NoInstance)];
    cmds' := cmds[c := cmds[c].(maxPayload := cmds[c].maxPayload + count)];
  }

  /** implAlloc's outcome: the lowest empty slot, reused as it is, or a
      default slot appended at the end. */
  ghost predicate SlotPicked(objs0: seq<Object>, objs: seq<Object>, id: nat)
  {
    && id == FirstFree(objs0) && SlotTaken(objs0, objs, id)
    && (id < |objs0| ==> objs == objs0)
    && (id == |objs0| ==> objs == objs0 + [EmptyObject])
  }

  /** What bucketId and commandId produced for one alloc: `b` is the
      bucket of (mesh, mat) in the grown bucket table, and `c` the command
      of the pipeline pair or NoCommand, whose payload grew by `count`
      meshlets; a new command's descriptor sets were allocated. */
  ghost predicate Registered(bks: seq<Bucket>, cmds: seq<DrawCmd>, gpu: seq<GpuCall>, b: nat, c: nat,
                             bks0: seq<Bucket>, cmds0: seq<DrawCmd>, gpu0: seq<GpuCall>,
                             mesh: MeshRef, mat: Material, count: nat, t: ObjType)
  {
    && |bks0| <= |bks| && bks[..|bks0|] == bks0
    && b < |bks| && bks[b] == Bucket(mesh, mat)
    && (forall k :: 0 <= k < b ==> bks[k] != Bucket(mesh, mat))
    && (c == NoCommand <==> !Opaque(mat.alpha))
    && (c == NoCommand ==> cmds == cmds0 && gpu == gpu0)
    && (c != NoCommand ==>
          && c < |cmds|
          && PairOf(cmds[c]) == (PipelineColor(mat, t), PipelineDepth(mat, t))
          && |cmds0| <= |cmds| <= |cmds0| + 1
          && (forall k :: 0 <= k < |cmds0| && k != c ==> cmds[k] == cmds0[k])
          && cmds[c].maxPayload == (if c < |cmds0| then cmds0[c].maxPayload else 0) + count
          && (c < |cmds0| ==> gpu == gpu0)
          && (c == |cmds0| ==> gpu == gpu0 + DescriptorCalls(PipelineColor(mat, t), PipelineDepth(mat, t))))
  }

  /** The object the packed alloc leaves in its slot (previously `o0`) and
      the clusters it appends: one per meshlet, with the packed bounds. */
  ghost predicate PackedPlaced(o: Object, o0: Object, iboOff: nat, iboLen: nat, packed: seq<PackedCluster>,
                               cl0: seq<Cluster>, cl: seq<Cluster>)
  {
    && o == Placed(o0, Landscape, iboOff, iboLen, o.bucketId, o.cmdId, o.clusterId)
    && (IsEmpty(o) ==> cl == cl0 && o.clusterId == NoCluster)
    && (!IsEmpty(o) ==>
          && o.clusterId == |cl0| && |cl| == |cl0| + iboLen / MaxInd && cl[..|cl0|] == cl0
          && iboLen / MaxInd <= |packed|
          && (forall q :: |cl0| <= q < |cl| ==>
                cl[q] == Cluster(packed[q - |cl0|].pos, packed[q - |cl0|].r, o.bucketId, o.cmdId,
                                 iboOff / MaxInd + (q - |cl0|), 1, NoInstance)))
  }

  /** The object the bucket alloc leaves in its slot (previously `o0`) and
      the one cluster it appends, which carries the instance slot. */
  ghost predicate BucketPlaced(o: Object, o0: Object, t: ObjType, iboOff: nat, iboLen: nat, radius: real, slot: nat,
                               cl0: seq<Cluster>, cl: seq<Cluster>)
  {
    && o == Placed(o0, t, iboOff, iboLen, o.bucketId, o.cmdId, o.clusterId)
                .(instance := if IsEmpty(o) then o0.instance else Some(slot))
    && (IsEmpty(o) ==> cl == cl0 && o.clusterId == NoCluster)
    && (!IsEmpty(o) ==>
          && o.clusterId == |cl0|
          && cl == cl0 + [Cluster(Vec3(0.0, 0.0, 0.0), radius, o.bucketId, o.cmdId, iboOff / MaxInd, iboLen / MaxInd, slot)])
  }

  /** implAlloc, bucketId and commandId keep consistent tables consistent,
      and leave an empty slot past whose clusters the new ones go. */
  lemma {:induction false} LookupKeeps(objs0: seq<Object>, objs: seq<Object>, id: nat, bks: seq<Bucket>,
                                       cmds: seq<DrawCmd>, cl: seq<Cluster>, mesh: MeshRef, mat: Material, t: ObjType,
                                       b: nat, bks1: seq<Bucket>, c: nat, cmds1: seq<DrawCmd>, calls: seq<GpuCall>)
    requires TablesOk(objs0, bks, cmds, cl) && Synced(objs0, cl, -1)
    requires SlotPicked(objs0, objs, id)
    requires BucketFound(bks, mesh, mat, b, bks1)
    requires CommandFound(cmds, mat, t, c, cmds1, calls)
    ensures TablesOk(objs, bks1, cmds1, cl) && Synced(objs, cl, -1)
    ensures id < |objs| && IsEmpty(objs[id]) && objs[id] == SlotAt(objs0, id) && objs[id].pos == Identity
    ensures RangesBelow(objs, |cl|)
    ensures c == NoCommand || c < |cmds1|
    ensures c == NoCommand <==> !Opaque(mat.alpha)
  {
    if id == |objs0| {
      EmptySlotStep(objs0, bks, cmds, cl, -1);
    }
    BucketStep(objs, bks, cmds, cl, bks1);
    ColorImpliesDepth(mat, t);
    if c != NoCommand && c == |cmds| {
      CommandStep(objs, bks1, cmds, cl, cmds1[c]);
    }
    ObjectsEnd(objs, |cmds1|, |bks1|, cl);
  }

  /** The rest of the packed alloc keeps the tables consistent. */
  lemma {:induction false} PackedKeeps(objs: seq<Object>, id: nat, bks: seq<Bucket>, cmds: seq<DrawCmd>,
                                       cl: seq<Cluster>, iboOff: nat, iboLen: nat, packed: seq<PackedCluster>,
                                       b: nat, c: nat, r: nat, cl1: seq<Cluster>, cmds2: seq<DrawCmd>)
    requires TablesOk(objs, bks, cmds, cl) && Synced(objs, cl, -1) && b < |bks|
    requires id < |objs| && IsEmpty(objs[id]) && RangesBelow(objs, |cl|)
    requires c == NoCommand || c < |cmds|
    requires PackedAdded(cl, cmds, packed, iboOff / MaxInd, iboLen / MaxInd, b, c, r, cl1, cmds2)
    ensures var o := Placed(objs[id], Landscape, iboOff, iboLen, b, c, r);
      TablesOk(objs[id := o], bks, cmds2, cl1) && Synced(objs[id := o], cl1, -1)
  {
    var o := Placed(objs[id], Landscape, iboOff, iboLen, b, c, r);
    if c != NoCommand {
      var extra := cl1[r..];
      assert cl1 == cl + extra;
      PayloadOnes(extra, c);
      ClusterStep(objs, bks, cmds, cl, extra, c, iboLen / MaxInd, -1);
      LandscapeRange(o, |cmds2|, |bks|, cl1, r);
    }
    PlaceStep(objs, bks, cmds2, cl1, id, o, -1);
  }

  /** The packed alloc places the object and appends its clusters. */
  lemma PackedPlacedFrom(o0: Object, iboOff: nat, iboLen: nat, packed: seq<PackedCluster>, b: nat, c: nat, r: nat,
                         cl: seq<Cluster>, cmds: seq<DrawCmd>, cl1: seq<Cluster>, cmds2: seq<DrawCmd>)
    requires PackedAdded(cl, cmds, packed, iboOff / MaxInd, iboLen / MaxInd, b, c, r, cl1, cmds2)
    ensures PackedPlaced(Placed(o0, Landscape, iboOff, iboLen, b, c, r), o0, iboOff, iboLen, packed, cl, cl1)
  {
  }

  /** The rest of the bucket alloc, the instance slot included, keeps the
      tables consistent. */
  lemma {:induction false} BucketKeeps(objs: seq<Object>, id: nat, bks: seq<Bucket>, cmds: seq<DrawCmd>,
                                       cl: seq<Cluster>, t: ObjType, iboOff: nat, iboLen: nat, radius: real,
                                       slot: nat, b: nat, c: nat, r: nat, cl1: seq<Cluster>, cmds2: seq<DrawCmd>)
    requires TablesOk(objs, bks, cmds, cl) && Synced(objs, cl, -1) && b < |bks|
    requires id < |objs| && IsEmpty(objs[id]) && objs[id].pos == Identity && RangesBelow(objs, |cl|)
    requires t == Landscape ==> iboLen / MaxInd <= 1
    requires c == NoCommand || c < |cmds|
    requires BucketAdded(cl, cmds, radius, iboOff / MaxInd, iboLen / MaxInd, b, c, r, cl1, cmds2)
    ensures c != NoCommand ==> r < |cl1|
    ensures var o := Placed(objs[id], t, iboOff, iboLen, b, c, r).(instance := if c == NoCommand then objs[id].instance else Some(slot));
      var cl2 := if c == NoCommand then cl1 else cl1[r := cl1[r].(instanceId := slot)];
      TablesOk(objs[id := o], bks, cmds2, cl2) && Synced(objs[id := o], cl2, -1)
  {
    var o := Placed(objs[id], t, iboOff, iboLen, b, c, r);
    var cl2 := cl1;
    if c != NoCommand {
      var x := cl1[r];
      assert cl1 == cl + [x];
      PayloadSingle(x, c);
      ClusterStep(objs, bks, cmds, cl, [x], c, iboLen / MaxInd, -1);
      o := o.(instance := Some(slot));
      RetagStep(objs, bks, cmds2, cl1, r, x.(instanceId := slot), -1);
      cl2 := cl1[r := x.(instanceId := slot)];
      BucketRange(o, |cmds2|, |bks|, cl2, r);
    }
    PlaceStep(objs, bks, cmds2, cl2, id, o, -1);
  }

  /** The bucket alloc places the object, with its instance slot, and
      appends its cluster. */
  lemma BucketPlacedFrom(o0: Object, t: ObjType, iboOff: nat, iboLen: nat, radius: real, slot: nat, b: nat, c: nat,
                         r: nat, cl: seq<Cluster>, cmds: seq<DrawCmd>, cl1: seq<Cluster>, cmds2: seq<DrawCmd>)
    requires BucketAdded(cl, cmds, radius, iboOff / MaxInd, iboLen / MaxInd, b, c, r, cl1, cmds2)
    ensures c != NoCommand ==> r < |cl1|
    ensures var o := Placed(o0, t, iboOff, iboLen, b, c, r).(instance := if c == NoCommand then o0.instance else Some(slot));
      var cl2 := if c == NoCommand then cl1 else cl1[r := cl1[r].(instanceId := slot)];
      BucketPlaced(o, o0, t, iboOff, iboLen, radius, slot, cl, cl2)
  {
  }

  /** bucketId, commandId and clusterId together register the object:
      both flavours of clusterId grow the command's payload by `count`. */
  lemma Registers(bks: seq<Bucket>, cmds: seq<DrawCmd>, gpu: seq<GpuCall>, mesh: MeshRef, mat: Material, t: ObjType,
                  count: nat, b: nat, bks1: seq<Bucket>, c: nat, cmds1: seq<DrawCmd>, calls: seq<GpuCall>,
                  cmds2: seq<DrawCmd>)
    requires BucketFound(bks, mesh, mat, b, bks1)
    requires CommandFound(cmds, mat, t, c, cmds1, calls)
    requires c == NoCommand ==> cmds2 == cmds1
    requires c != NoCommand ==> c < |cmds1| && cmds2 == cmds1[c := cmds1[c].(maxPayload := cmds1[c].maxPayload + count)]
    ensures Registered(bks1, cmds2, gpu + calls, b, c, bks, cmds, gpu, mesh, mat, count, t)
  {
    ColorImpliesDepth(mat, t);
    assert bks1[..|bks|] == bks;
    if c != NoCommand && c == |cmds| {
      assert cmds1[c] == NewCommand(PipelineColor(mat, t), PipelineDepth(mat, t), t, mat);
    }
  }

  /** The packed alloc's proof once the lookups are done. */
  lemma PackedFinish(objs0: seq<Object>, objs: seq<Object>, id: nat, bks0: seq<Bucket>, cmds0: seq<DrawCmd>,
                     cl0: seq<Cluster>, gpu: seq<GpuCall>, mesh: MeshId, mat: Material, iboOff: nat, iboLen: nat,
                     packed: seq<PackedCluster>, t: ObjType, b: nat, bks: seq<Bucket>, c: nat, cmds1: seq<DrawCmd>,
                     calls: seq<GpuCall>, r: nat, cl: seq<Cluster>, cmds: seq<DrawCmd>, o: Object)
    requires TablesOk(objs, bks, cmds1, cl0) && Synced(objs, cl0, -1) && SlotPicked(objs0, objs, id)
    requires id < |objs| && IsEmpty(objs[id]) && objs[id] == SlotAt(objs0, id) && RangesBelow(objs, |cl0|)
    requires c == NoCommand || c < |cmds1|
    requires BucketFound(bks0, StaticMesh(mesh), mat, b, bks)
    requires CommandFound(cmds0, mat, t, c, cmds1, calls)
    requires PackedAdded(cl0, cmds1, packed, iboOff / MaxInd, iboLen / MaxInd, b, c, r, cl, cmds)
    requires o == Placed(objs[id], Landscape, iboOff, iboLen, b, c, r)
    ensures id < |objs| && TablesOk(objs[id := o], bks, cmds, cl) && Synced(objs[id := o], cl, -1)
    ensures |cmds0| <= |cmds| && SlotTaken(objs0, objs[id := o], id)
    ensures PackedAllocated(objs0, bks0, cmds0, cl0, gpu, objs[id := o], bks, cmds, cl, gpu + calls, mesh, mat, iboOff, iboLen, packed, t)
  {
    PackedKeeps(objs, id, bks, cmds1, cl0, iboOff, iboLen, packed, b, c, r, cl, cmds);
    PackedPlacedFrom(objs[id], iboOff, iboLen, packed, b, c, r, cl0, cmds1, cl, cmds);
    Registers(bks0, cmds0, gpu, StaticMesh(mesh), mat, t, iboLen / MaxInd, b, bks, c, cmds1, calls, cmds);
    SlotTakenSet(objs0, objs, id, o);
  }

  /** The bucket alloc's proof once the lookups are done. */
  lemma BucketFinish(objs0: seq<Object>, objs: seq<Object>, id: nat, bks0: seq<Bucket>, cmds0: seq<DrawCmd>,
                     cl0: seq<Cluster>, gpu: seq<GpuCall>, mesh: MeshId, mat: Material, iboOff: nat, iboLen: nat,
                     radius: real, slot: nat, t: ObjType, b: nat, bks: seq<Bucket>, c: nat, cmds1: seq<DrawCmd>,
                     calls: seq<GpuCall>, r: nat, cl1: seq<Cluster>, cmds: seq<DrawCmd>, o: Object, cl: seq<Cluster>)
    requires TablesOk(objs, bks, cmds1, cl0) && Synced(objs, cl0, -1) && SlotPicked(objs0, objs, id)
    requires id < |objs| && IsEmpty(objs[id]) && objs[id] == SlotAt(objs0, id) && objs[id].pos == Identity
    requires RangesBelow(objs, |cl0|) && (t == Landscape ==> iboLen / MaxInd <= 1)
    requires c == NoCommand || c < |cmds1|
    requires BucketFound(bks0, StaticMesh(mesh), mat, b, bks)
    requires CommandFound(cmds0, mat, t, c, cmds1, calls)
    requires BucketAdded(cl0, cmds1, radius, iboOff / MaxInd, iboLen / MaxInd, b, c, r, cl1, cmds)
    requires o == Placed(objs[id], t, iboOff, iboLen, b, c, r).(instance := if c == NoCommand then objs[id].instance else Some(slot))
    requires cl == if c == NoCommand then cl1 else cl1[r := cl1[r].(instanceId := slot)]
    ensures id < |objs| && TablesOk(objs[id := o], bks, cmds, cl) && Synced(objs[id := o], cl, -1)
    ensures |cmds0| <= |cmds| && SlotTaken(objs0, objs[id := o], id)
    ensures BucketAllocated(objs0, bks0, cmds0, cl0, gpu, objs[id := o], bks, cmds, cl, gpu + calls, mesh, mat, t, iboOff, iboLen, radius, slot)
  {
    BucketKeeps(objs, id, bks, cmds1, cl0, t, iboOff, iboLen, radius, slot, b, c, r, cl1, cmds);
    BucketFinishAlloc(objs0, objs, id, bks0, cmds0, cl0, gpu, mesh, mat, iboOff, iboLen, radius, slot, t, b, bks, c,
                      cmds1, calls, r, cl1, cmds, o, cl);
  }

  /** The bookkeeping half of BucketFinish: the slot, the placement and
      the registration. */
  lemma BucketFinishAlloc(objs0: seq<Object>, objs: seq<Object>, id: nat, bks0: seq<Bucket>, cmds0: seq<DrawCmd>,
                          cl0: seq<Cluster>, gpu: seq<GpuCall>, mesh: MeshId, mat: Material, iboOff: nat, iboLen: nat,
                          radius: real, slot: nat, t: ObjType, b: nat, bks: seq<Bucket>, c: nat, cmds1: seq<DrawCmd>,
                          calls: seq<GpuCall>, r: nat, cl1: seq<Cluster>, cmds: seq<DrawCmd>, o: Object, cl: seq<Cluster>)
    requires SlotPicked(objs0, objs, id) && id < |objs| && objs[id] == SlotAt(objs0, id)
    requires BucketFound(bks0, StaticMesh(mesh), mat, b, bks)
    requires CommandFound(cmds0, mat, t, c, cmds1, calls)
    requires c == NoCommand || c < |cmds1|
    requires BucketAdded(cl0, cmds1, radius, iboOff / MaxInd, iboLen / MaxInd, b, c, r, cl1, cmds)
    requires o == Placed(objs[id], t, iboOff, iboLen, b, c, r).(instance := if c == NoCommand then objs[id].instance else Some(slot))
    requires cl == if c == NoCommand then cl1 else cl1[r := cl1[r].(instanceId := slot)]
    ensures |cmds0| <= |cmds| && SlotTaken(objs0, objs[id := o], id)
    ensures BucketAllocated(objs0, bks0, cmds0, cl0, gpu, objs[id := o], bks, cmds, cl, gpu + calls, mesh, mat, t, iboOff, iboLen, radius, slot)
  {
    assert BucketPlaced(o, SlotAt(objs0, id), t, iboOff, iboLen, radius, slot, cl0, cl) by {
      BucketPlacedFrom(objs[id], t, iboOff, iboLen, radius, slot, b, c, r, cl0, cmds1, cl1, cmds);
    }
    assert Registered(bks, cmds, gpu + calls, b, c, bks0, cmds0, gpu, StaticMesh(mesh), mat, iboLen / MaxInd, t) by {
      Registers(bks0, cmds0, gpu, StaticMesh(mesh), mat, t, iboLen / MaxInd, b, bks, c, cmds1, calls, cmds);
    }
    SlotTakenSet(objs0, objs, id, o);
    var objs' := objs[id := o];
    assert objs'[id] == o && o.bucketId == b && o.cmdId == c;
    BucketAllocatedFrom(objs0, bks0, cmds0, cl0, gpu, objs', bks, cmds, cl, gpu + calls, mesh, mat, t, iboOff, iboLen,
                        radius, slot, id);
  }

  lemma BucketAllocatedFrom(objs0: seq<Object>, bks0: seq<Bucket>, cmds0: seq<DrawCmd>, cl0: seq<Cluster>, gpu0: seq<GpuCall>,
                            objs: seq<Object>, bks: seq<Bucket>, cmds: seq<DrawCmd>, cl: seq<Cluster>, gpu: seq<GpuCall>,
                            mesh: MeshId, mat: Material, t: ObjType, iboOff: nat, iboLen: nat, radius: real, slot: nat,
                            id: nat)
    requires id == FirstFree(objs0) && SlotTaken(objs0, objs, id)
    requires BucketPlaced(objs[id], SlotAt(objs0, id), t, iboOff, iboLen, radius, slot, cl0, cl)
    requires Registered(bks, cmds, gpu, objs[id].bucketId, objs[id].cmdId, bks0, cmds0, gpu0, StaticMesh(mesh), mat,
                        iboLen / MaxInd, t)
    ensures BucketAllocated(objs0, bks0, cmds0, cl0, gpu0, objs, bks, cmds, cl, gpu, mesh, mat, t, iboOff, iboLen, radius, slot)
  {
  }

  /** The outcome of the packed alloc, from tables (objs0, bks0, cmds0, cl0)
      and device log gpu0 to (objs, bks, cmds, cl) and gpu: the lowest
      free slot is taken, holds the placed object, and the object is
      registered with its bucket and command. */
  ghost predicate PackedAllocated(objs0: seq<Object>, bks0: seq<Bucket>, cmds0: seq<DrawCmd>, cl0: seq<Cluster>, gpu0: seq<GpuCall>,
                     objs: seq<Object>, bks: seq<Bucket>, cmds: seq<DrawCmd>, cl: seq<Cluster>, gpu: seq<GpuCall>,
                     mesh: MeshId, mat: Material, iboOff: nat, iboLen: nat, packed: seq<PackedCluster>, t: ObjType)
  {
    var id := FirstFree(objs0);
    && SlotTaken(objs0, objs, id)
    && PackedPlaced(objs[id], SlotAt(objs0, id), iboOff, iboLen, packed, cl0, cl)
    && Registered(bks, cmds, gpu, objs[id].bucketId, objs[id].cmdId, bks0, cmds0, gpu0, StaticMesh(mesh), mat,
                  iboLen / MaxInd, t)
  }

  /** The outcome of the bucket alloc, from tables (objs0, bks0, cmds0, cl0)
      and device log gpu0 to (objs, bks, cmds, cl) and gpu: the lowest
      free slot is taken, holds the placed object, and the object is
      registered with its bucket and command. */
  ghost predicate BucketAllocated(objs0: seq<Object>, bks0: seq<Bucket>, cmds0: seq<DrawCmd>, cl0: seq<Cluster>, gpu0: seq<GpuCall>,
                     objs: seq<Object>, bks: seq<Bucket>, cmds: seq<DrawCmd>, cl: seq<Cluster>, gpu: seq<GpuCall>,
                     mesh: MeshId, mat: Material, t: ObjType, iboOff: nat, iboLen: nat, radius: real, slot: nat)
  {
    var id := FirstFree(objs0);
    && SlotTaken(objs0, objs, id)
    && BucketPlaced(objs[id], SlotAt(objs0, id), t, iboOff, iboLen, radius, slot, cl0, cl)
    && Registered(bks, cmds, gpu, objs[id].bucketId, objs[id].cmdId, bks0, cmds0, gpu0, StaticMesh(mesh), mat,
                  iboLen / MaxInd, t)
  }
}
