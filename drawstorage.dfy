/** DrawStorage: the object, bucket, command and cluster tables, their
    allocation and release, the per-frame commit and the draw planning;
    and Item, the move-only handle that releases its object. */
module Storage {
  import opened Types
  import opened Pipelines
  import opened DrawTables
  import opened DrawInvariants
  import opened CommandOrder
  import opened DrawPlan
  import opened Lookups

  /** What `commit` leaves behind: `ord` sorts the commands by alpha,
      each command's `firstPayload` is the (32-bit) sum of the payloads
      before it, the indirect table points each command at that offset,
      and `total` is the sum of all payloads. */
  ghost predicate PublishedOf(cmds: seq<DrawCmd>, ord: seq<nat>, indirect: seq<IndirectCmd>, total: nat)
  {
    && IsPermutation(ord, |cmds|) && RankSorted(ord, cmds)
    && |indirect| == |cmds|
    && (forall k :: 0 <= k < |cmds| ==>
          && cmds[k].firstPayload == PayloadPrefix(cmds, k) % 0x1_0000_0000
          && indirect[k] == IndirectCmd(MaxInd, 0, 0, 0, cmds[k].firstPayload))
    && total == PayloadPrefix(cmds, |cmds|)
  }

  /** The storage invariant: the tables agree with each other; `ord`
      stays within the command table; the tables `commit` fills stay
      empty while there are no commands; and when `commited` holds they
      are up to date. */
  ghost predicate CoreOf(objs: seq<Object>, bks: seq<Bucket>, cmds: seq<DrawCmd>, cl: seq<Cluster>, ord: seq<nat>,
                         indirect: seq<IndirectCmd>, total: nat, commited: bool)
  {
    && TablesOk(objs, bks, cmds, cl)
    && (forall p :: 0 <= p < |ord| ==> ord[p] < |cmds|)
    && (|cmds| == 0 ==> ord == [] && indirect == [] && total == 0)
    && (commited ==> PublishedOf(cmds, ord, indirect, total))
  }

  /** `hs` registers, for each live object of `objs`, the one handle that
      owns it: a handle of `s` naming that object's slot. */
  ghost predicate OwnedBy(s: DrawStorage, objs: seq<Object>, hs: map<nat, Item>)
    reads hs.Values
  {
    && (forall k :: k in hs ==> hs[k].owner == s && hs[k].id == k && k < |objs| && !IsEmpty(objs[k]))
    && (forall k: nat :: k < |objs| && !IsEmpty(objs[k]) ==> k in hs)
  }

  /** A handle that does not belong to `s` is none of its registered ones. */
  lemma NotRegistered(s: DrawStorage, objs: seq<Object>, hs: map<nat, Item>, h: Item)
    requires OwnedBy(s, objs, hs) && h.owner != s
    ensures h !in hs.Values
  {
    forall v | v in hs.Values
      ensures v != h
    {
      var k :| k in hs && hs[k] == v;
    }
  }

  /** The registry change of a move step: handle `h` now owns slot
      `h.id` of `h.owner` in place of the handle registered there, and
      nothing else in the storage or in its other registered handles
      changed. The registry stays exact and `h` is attached. */
  twostate lemma Rebound(h: Item)
    requires h.owner != null
    requires var s, i := h.owner, h.id;
      && old(allocated(s)) && old(s.Owned()) && i in old(s.handles)
      && unchanged(s`objects)
      && s.handles == old(s.handles)[i := h]
      && unchanged(old(s.handles).Values - {old(s.handles[i])})
    ensures h.Attached()
  {
    var s, i := h.owner, h.id;
    ghost var hs := old(s.handles);
    forall k | k in hs && k != i
      ensures hs[k].owner == s && hs[k].id == k
    {
      assert old(hs[k].owner == s && hs[k].id == k);
      assert hs[k] in hs.Values - {hs[i]};
    }
  }

  /** A storage nothing changed in, nor in its registered handles, keeps
      its registry. */
  twostate lemma StaysOwned(s: DrawStorage)
    requires old(s.Owned())
    requires unchanged(s) && unchanged(s.handles.Values)
    ensures s.Owned()
  {
  }

  /** alloc's table updates keep the invariant, with `commited` cleared. */
  lemma AllocKeeps(objs0: seq<Object>, bks0: seq<Bucket>, cmds0: seq<DrawCmd>, cl0: seq<Cluster>, ord: seq<nat>,
                   indirect: seq<IndirectCmd>, total: nat, commited: bool,
                   objs: seq<Object>, bks: seq<Bucket>, cmds: seq<DrawCmd>, cl: seq<Cluster>)
    requires CoreOf(objs0, bks0, cmds0, cl0, ord, indirect, total, commited)
    requires TablesOk(objs, bks, cmds, cl) && |cmds0| <= |cmds|
    ensures CoreOf(objs, bks, cmds, cl, ord, indirect, total, false)
  {
  }

  /** The table updates of the packed alloc once implAlloc picked slot
      `id`: bucketId, commandId and clusterId in the source's order, and
      the object they produce. */
  method PackedTables(objs0: seq<Object>, objs: seq<Object>, id: nat, bks0: seq<Bucket>, cmds0: seq<DrawCmd>,
                      cl0: seq<Cluster>, ord: seq<nat>, indirect: seq<IndirectCmd>, total: nat,
                      commited: bool, ghost gpu: seq<GpuCall>, mesh: MeshId, mat: Material, iboOff: nat, iboLen: nat,
                      packed: seq<PackedCluster>, t: ObjType)
      returns (o: Object, bks: seq<Bucket>, cmds: seq<DrawCmd>, cl: seq<Cluster>, calls: seq<GpuCall>)
    requires CoreOf(objs0, bks0, cmds0, cl0, ord, indirect, total, commited) && Synced(objs0, cl0, -1)
    requires SlotPicked(objs0, objs, id)
    requires Opaque(mat.alpha) ==> iboLen / MaxInd <= |packed|
    ensures id < |objs| && CoreOf(objs[id := o], bks, cmds, cl, ord, indirect, total, false)
    ensures Synced(objs[id := o], cl, -1)
    ensures PackedAllocated(objs0, bks0, cmds0, cl0, gpu, objs[id := o], bks, cmds, cl, gpu + calls, mesh, mat, iboOff, iboLen, packed, t)
  {
    var b, c, cmds1;
    b, bks := BucketId(bks0, mat, StaticMesh(mesh));
    c, cmds1, calls := CommandId(cmds0, mat, t);
    LookupKeeps(objs0, objs, id, bks0, cmds0, cl0, StaticMesh(mesh), mat, t, b, bks, c, cmds1, calls);
    var r;
    r, cl, cmds := ClusterIdPacked(cl0, cmds1, packed, iboOff / MaxInd, iboLen / MaxInd, b, c);
    o := Placed(objs[id], Landscape, iboOff, iboLen, b, c, r);
    PackedFinish(objs0, objs, id, bks0, cmds0, cl0, gpu, mesh, mat, iboOff, iboLen, packed, t,
                 b, bks, c, cmds1, calls, r, cl, cmds, o);
    AllocKeeps(objs0, bks0, cmds0, cl0, ord, indirect, total, commited, objs[id := o], bks, cmds, cl);
  }

  /** The table updates of the bucket alloc once implAlloc picked slot
      `id`, the cluster's instance slot included. */
  method BucketTables(objs0: seq<Object>, objs: seq<Object>, id: nat, bks0: seq<Bucket>, cmds0: seq<DrawCmd>,
                      cl0: seq<Cluster>, ord: seq<nat>, indirect: seq<IndirectCmd>, total: nat,
                      commited: bool, ghost gpu: seq<GpuCall>, mesh: MeshId, mat: Material, iboOff: nat, iboLen: nat,
                      radius: real, slot: nat, t: ObjType)
      returns (o: Object, bks: seq<Bucket>, cmds: seq<DrawCmd>, cl: seq<Cluster>, calls: seq<GpuCall>)
    requires CoreOf(objs0, bks0, cmds0, cl0, ord, indirect, total, commited) && Synced(objs0, cl0, -1)
    requires SlotPicked(objs0, objs, id)
    requires t == Landscape ==> iboLen / MaxInd <= 1
    ensures id < |objs| && CoreOf(objs[id := o], bks, cmds, cl, ord, indirect, total, false)
    ensures Synced(objs[id := o], cl, -1)
    ensures BucketAllocated(objs0, bks0, cmds0, cl0, gpu, objs[id := o], bks, cmds, cl, gpu + calls, mesh, mat, t, iboOff, iboLen, radius, slot)
  {
    var b, c, cmds1;
    b, bks := BucketId(bks0, mat, StaticMesh(mesh));
    c, cmds1, calls := CommandId(cmds0, mat, t);
    LookupKeeps(objs0, objs, id, bks0, cmds0, cl0, StaticMesh(mesh), mat, t, b, bks, c, cmds1, calls);
    var r, cl1;
    r, cl1, cmds := ClusterIdBucket(cl0, cmds1, radius, iboOff / MaxInd, iboLen / MaxInd, b, c);
    o := Placed(objs[id], t, iboOff, iboLen, b, c, r).(instance := if c == NoCommand then objs[id].instance else Some(slot));
    cl := if c == NoCommand then cl1 else cl1[r := cl1[r].(instanceId := slot)];
    BucketFinish(objs0, objs, id, bks0, cmds0, cl0, gpu, mesh, mat, iboOff, iboLen, radius, slot, t,
                 b, bks, c, cmds1, calls, r, cl1, cmds, o, cl);
    AllocKeeps(objs0, bks0, cmds0, cl0, ord, indirect, total, commited, objs[id := o], bks, cmds, cl);
  }

  /** free's loop resetting `n` cluster slots from `r` on. */
  method ResetClusters(cl0: seq<Cluster>, r: nat, n: nat) returns (cl: seq<Cluster>)
    requires r + n <= |cl0|
    ensures cl == Tombstoned(cl0, r, n)
  {
    cl := cl0;
    var i := 0;
    while i < n
      invariant 0 <= i <= n && |cl| == |cl0|
      invariant forall q :: 0 <= q < |cl| ==> cl[q] == if r <= q < r + i then Tombstone else cl0[q]
    {
      cl := cl[r + i := Tombstone];
      i := i + 1;
    }
  }

  /** free's pop_back loop. */
  method PopEmpty(objs0: seq<Object>) returns (objs: seq<Object>)
    ensures objs == TrimTail(objs0)
  {
    objs := objs0;
    while |objs| > 0 && IsEmpty(objs[|objs| - 1])
      invariant TrimTail(objs) == TrimTail(objs0)
      decreases |objs|
    {
      objs := objs[..|objs| - 1];
    }
  }

  /** free's updates of the object, command and cluster tables. */
  method ReleaseTables(objs0: seq<Object>, bks: seq<Bucket>, cmds0: seq<DrawCmd>, cl0: seq<Cluster>, ord: seq<nat>,
                       indirect: seq<IndirectCmd>, total: nat, commited: bool, id: nat)
      returns (objs: seq<Object>, cmds: seq<DrawCmd>, cl: seq<Cluster>)
    requires CoreOf(objs0, bks, cmds0, cl0, ord, indirect, total, commited) && Synced(objs0, cl0, -1)
    requires id < |objs0| && !IsEmpty(objs0[id])
    ensures objs0[id].cmdId < |cmds0| && MeshletCount(objs0[id]) <= cmds0[objs0[id].cmdId].maxPayload
    ensures cmds == Debited(cmds0, objs0[id])
    ensures cl == Tombstoned(cl0, objs0[id].clusterId, NumClusters(objs0[id]))
    ensures objs == TrimTail(objs0[id := EmptyObject])
    ensures CoreOf(objs, bks, cmds, cl, ord, indirect, total, false) && Synced(objs, cl, -1)
  {
    var o := objs0[id];
    ReleaseBounds(objs0, bks, cmds0, cl0, id);
    var meshlets := o.iboLen / MaxInd;
    cmds := cmds0[o.cmdId := cmds0[o.cmdId].(maxPayload := cmds0[o.cmdId].maxPayload - meshlets)];
    cl := ResetClusters(cl0, o.clusterId, if o.objType == Landscape then meshlets else 1);
    objs := PopEmpty(objs0[id := EmptyObject]);
    ReleaseStep(objs0, bks, cmds0, cl0, id);
    ReleaseSynced(objs0, bks, cmds0, cl0, id);
    TrimStep(objs0[id := EmptyObject], bks, cmds, cl);
  }

  /** commit's payload pass: each command's `firstPayload` becomes the
      32-bit truncation of the payload before it. */
  method StampPayload(cmds0: seq<DrawCmd>) returns (cmds: seq<DrawCmd>, total: nat)
    ensures |cmds| == |cmds0|
    ensures forall k :: 0 <= k < |cmds0| ==>
      cmds[k] == cmds0[k].(firstPayload := PayloadPrefix(cmds0, k) % 0x1_0000_0000)
    ensures total == PayloadPrefix(cmds0, |cmds0|)
  {
    total := 0;
    cmds := cmds0;
    var i := 0;
    while i < |cmds|
      invariant 0 <= i <= |cmds| && |cmds| == |cmds0|
      invariant total == PayloadPrefix(cmds0, i)
      invariant forall k {:trigger cmds[k]} :: 0 <= k < i ==>
        cmds[k] == cmds0[k].(firstPayload := PayloadPrefix(cmds0, k) % 0x1_0000_0000)
      invariant forall k {:trigger cmds[k]} :: i <= k < |cmds| ==> cmds[k] == cmds0[k]
    {
      var x := cmds[i];
      cmds := cmds[i := x.(firstPayload := total % 0x1_0000_0000)];
      total := total + x.maxPayload;
      i := i + 1;
    }
  }

  /** commit's indirect table: one draw of MaxInd vertices per command,
      writing at the command's first payload slot. */
  method IndirectTable(cmds: seq<DrawCmd>) returns (cx: seq<IndirectCmd>)
    ensures |cx| == |cmds|
    ensures forall k :: 0 <= k < |cmds| ==> cx[k] == IndirectCmd(MaxInd, 0, 0, 0, cmds[k].firstPayload)
  {
    cx := seq(|cmds|, _ => DefaultIndirect);
    var i := 0;
    while i < |cmds|
      invariant 0 <= i <= |cmds| && |cx| == |cmds|
      invariant forall k :: 0 <= k < i ==> cx[k] == IndirectCmd(MaxInd, 0, 0, 0, cmds[k].firstPayload)
      invariant forall k :: i <= k < |cx| ==> cx[k] == DefaultIndirect
    {
      cx := cx[i := cx[i].(vertexCount := MaxInd, writeOffset := cmds[i].firstPayload)];
      i := i + 1;
    }
  }

  /** Rewriting only the `firstPayload` fields keeps the tables
      consistent and leaves every prefix sum as it was. */
  lemma StampKeeps(objs: seq<Object>, bks: seq<Bucket>, cmds0: seq<DrawCmd>, cl: seq<Cluster>, cmds: seq<DrawCmd>)
    requires TablesOk(objs, bks, cmds0, cl) && |cmds| == |cmds0|
    requires forall k :: 0 <= k < |cmds0| ==> cmds[k] == cmds0[k].(firstPayload := cmds[k].firstPayload)
    ensures TablesOk(objs, bks, cmds, cl)
    ensures forall n :: 0 <= n <= |cmds| ==> PayloadPrefix(cmds, n) == PayloadPrefix(cmds0, n)
  {
    assert forall k :: 0 <= k < |cmds| ==> PairOf(cmds[k]) == PairOf(cmds0[k]) && CommandOk(cmds[k]);
    forall n | 0 <= n <= |cmds| ensures PayloadPrefix(cmds, n) == PayloadPrefix(cmds0, n) {
      PayloadPrefixFrame(cmds, cmds0, n);
    }
  }

  /** commit on a non-empty command table: the payload pass, the
      indirect table and the alpha order, which together publish it. */
  method Publish(objs: seq<Object>, bks: seq<Bucket>, cmds0: seq<DrawCmd>, cl: seq<Cluster>)
      returns (cmds: seq<DrawCmd>, ord: seq<nat>, cx: seq<IndirectCmd>, total: nat)
    requires TablesOk(objs, bks, cmds0, cl)
    ensures |cmds| == |cmds0|
    ensures forall k :: 0 <= k < |cmds0| ==> cmds[k] == cmds0[k].(firstPayload := cmds[k].firstPayload)
    ensures CoreOf(objs, bks, cmds, cl, ord, cx, total, true)
  {
    cmds, total := StampPayload(cmds0);
    cx := IndirectTable(cmds);
    ord := AlphaOrder(cmds);
    StampKeeps(objs, bks, cmds0, cl, cmds);
  }

  /** The draw loop shared by drawGBuffer and drawShadow: one call per
      entry of `ord` whose command holds a binding set for `v`. */
  method DrawPass(ord: seq<nat>, cmds: seq<DrawCmd>, v: View) returns (calls: seq<DrawCall>)
    requires forall p :: 0 <= p < |ord| ==> ord[p] < |cmds|
    requires forall c :: 0 <= c < |cmds| ==> Drawable(cmds[c], v)
    ensures calls == Plan(ord, cmds, v)
  {
    calls := [];
    var i := 0;
    while i < |ord|
      invariant 0 <= i <= |ord|
      invariant calls == Plan(ord[..i], cmds, v)
    {
      var k := ord[i];
      PlanSnoc(ord, cmds, v, i);
      if v in cmds[k].bindings {
        calls := calls + [DrawCall(Pso(cmds[k], v).value, v, cmds[k].firstPayload, cmds[k].maxPayload, IndirectStride * k)];
      }
      i := i + 1;
    }
    assert ord[..|ord|] == ord;
  }

  class DrawStorage {
    var objects: seq<Object>
    var buckets: seq<Bucket>
    var cmd: seq<DrawCmd>
    var clusters: seq<Cluster>
    var ord: seq<nat>
    /** The indirect-argument table uploaded for every view by `commit`. */
    var indirect: seq<IndirectCmd>
    var totalPayload: nat
    var commited: bool
    ghost var gpu: seq<GpuCall>
    /** Object ids released by `free`, in order. */
    ghost var freed: seq<nat>
    /** The handle that owns each live object. */
    ghost var handles: map<nat, Item>

    ghost predicate Core()
      reads this`objects, this`buckets, this`cmd, this`clusters, this`ord, this`indirect, this`totalPayload, this`commited
    {
      CoreOf(objects, buckets, cmd, clusters, ord, indirect, totalPayload, commited)
    }

    ghost predicate Published()
      reads this`cmd, this`ord, this`indirect, this`totalPayload
    {
      PublishedOf(cmd, ord, indirect, totalPayload)
    }

    ghost predicate Valid()
      reads this`objects, this`buckets, this`cmd, this`clusters, this`ord, this`indirect, this`totalPayload, this`commited
    {
      Core() && Synced(objects, clusters, -1)
    }

    /** Every live object is owned by exactly one handle. */
    ghost predicate Owned()
      reads this`objects, this`handles, handles.Values
    {
      OwnedBy(this, objects, handles)
    }

    predicate IsLive(id: nat)
      reads this`objects
    {
      id < |objects| && !IsEmpty(objects[id])
    }

    constructor ()
      ensures Valid()
      ensures objects == [] && buckets == [] && cmd == [] && clusters == [] && ord == []
      ensures indirect == [] && totalPayload == 0 && !commited
      ensures gpu == [] && freed == [] && handles == map[] && Owned()
    {
      objects, buckets, cmd, clusters, ord := [], [], [], [], [];
      indirect, totalPayload, commited := [], 0, false;
      gpu, freed, handles := [], [], map[];
    }

    /** implAlloc: the lowest empty slot, or a new slot at the end. */
    method ImplAlloc() returns (id: nat)
      modifies this`objects, this`commited
      ensures !commited && SlotPicked(old(objects), objects, id)
    {
      commited := false;
      var i := 0;
      while i < |objects|
        invariant 0 <= i <= |objects| && objects == old(objects)
        invariant forall k :: 0 <= k < i ==> !IsEmpty(objects[k])
      {
        if IsEmpty(objects[i]) {
          FirstFreeUnique(objects, i);
          return i;
        }
        i := i + 1;
      }
      objects := objects + [EmptyObject];
      id := |objects| - 1;
      FirstFreeUnique(old(objects), id);
    }

    /** alloc with a packed cluster descriptor: the object is always
        typed Landscape, while the command is looked up with `t`. */
    method AllocPacked(mesh: MeshId, mat: Material, iboOff: nat, iboLen: nat,
                       packed: seq<PackedCluster>, t: ObjType) returns (item: Item)
      requires Valid()
      requires iboOff % MaxInd == 0 && iboLen % MaxInd == 0
      requires iboOff < 0x1_0000_0000 && iboLen < 0x1_0000_0000
      requires Opaque(mat.alpha) ==> iboLen / MaxInd <= |packed|
      requires Owned()
      modifies this`objects, this`commited, this`buckets, this`cmd, this`gpu, this`clusters, this`handles
      ensures Valid() && Owned() && !commited && fresh(item)
      ensures var id := FirstFree(old(objects));
        && handles == (if item.owner == null then old(handles) else old(handles)[id := item])
        && PackedAllocated(old(objects), old(buckets), old(cmd), old(clusters), old(gpu), objects, buckets, cmd, clusters,
                           gpu, mesh, mat, iboOff, iboLen, packed, t)
        && (item.owner == null <==> IsEmpty(objects[id]))
        && (item.owner != null ==> item.owner == this && item.id == id)
    {
      var objs0, com0 := objects, commited;
      var id := ImplAlloc();
      StorePacked(objs0, com0, id, mesh, mat, iboOff, iboLen, packed, t);
      item := new Item.Handle(this, id, !IsEmpty(objects[id]));
      Adopt(objs0, id, item);
    }

    /** The lookups of the packed alloc once implAlloc picked slot `id` of
        `objs0` (the object table before it), with the object stored into
        its slot. */
    method StorePacked(objs0: seq<Object>, com0: bool, id: nat, mesh: MeshId, mat: Material, iboOff: nat, iboLen: nat,
                        packed: seq<PackedCluster>, t: ObjType)
      requires CoreOf(objs0, buckets, cmd, clusters, ord, indirect, totalPayload, com0) && Synced(objs0, clusters, -1)
      requires SlotPicked(objs0, objects, id) && !commited
      requires iboOff % MaxInd == 0 && iboLen % MaxInd == 0
      requires iboOff < 0x1_0000_0000 && iboLen < 0x1_0000_0000
      requires Opaque(mat.alpha) ==> iboLen / MaxInd <= |packed|
      modifies this`objects, this`buckets, this`cmd, this`gpu, this`clusters
      ensures Valid() && !commited && id < |objects| && SlotTaken(objs0, objects, id)
      ensures PackedAllocated(objs0, old(buckets), old(cmd), old(clusters), old(gpu), objects, buckets, cmd,
                              clusters, gpu, mesh, mat, iboOff, iboLen, packed, t)
    {
      var o, bks, cmds, cls, calls := PackedTables(objs0, objects, id, buckets, cmd, clusters, ord, indirect, totalPayload, com0,
                                                   gpu, mesh, mat, iboOff, iboLen, packed, t);
      SlotTakenSet(objs0, objects, id, o);
      objects, buckets, cmd, clusters, gpu := objects[id := o], bks, cmds, cls, gpu + calls;
      assert Core();
    }

    /** alloc for a static mesh drawn through its bucket: one cluster for
        the whole slice, and a per-instance slot `slot` (handed out by the
        instance storage) for a valid command. */
    method AllocBucket(mesh: MeshId, mat: Material, iboOff: nat, iboLen: nat, radius: real, slot: nat, t: ObjType)
        returns (item: Item)
      requires Valid()
      requires iboOff % MaxInd == 0 && iboLen % MaxInd == 0
      requires iboOff < 0x1_0000_0000 && iboLen < 0x1_0000_0000
      requires t == Landscape ==> iboLen / MaxInd <= 1
      requires Owned()
      modifies this`objects, this`commited, this`buckets, this`cmd, this`gpu, this`clusters, this`handles
      ensures Valid() && Owned() && !commited && fresh(item)
      ensures var id := FirstFree(old(objects));
        && handles == (if item.owner == null then old(handles) else old(handles)[id := item])
        && BucketAllocated(old(objects), old(buckets), old(cmd), old(clusters), old(gpu), objects, buckets, cmd, clusters,
                           gpu, mesh, mat, t, iboOff, iboLen, radius, slot)
        && (item.owner == null <==> IsEmpty(objects[id]))
        && (item.owner != null ==> item.owner == this && item.id == id)
    {
      var objs0, com0 := objects, commited;
      var id := ImplAlloc();
      StoreBucket(objs0, com0, id, mesh, mat, iboOff, iboLen, radius, slot, t);
      item := new Item.Handle(this, id, !IsEmpty(objects[id]));
      Adopt(objs0, id, item);
    }

    /** The lookups of the bucket alloc once implAlloc picked slot `id` of
        `objs0` (the object table before it), with the object stored into
        its slot. */
    method StoreBucket(objs0: seq<Object>, com0: bool, id: nat, mesh: MeshId, mat: Material, iboOff: nat, iboLen: nat,
                        radius: real, slot: nat, t: ObjType)
      requires CoreOf(objs0, buckets, cmd, clusters, ord, indirect, totalPayload, com0) && Synced(objs0, clusters, -1)
      requires SlotPicked(objs0, objects, id) && !commited
      requires iboOff % MaxInd == 0 && iboLen % MaxInd == 0
      requires iboOff < 0x1_0000_0000 && iboLen < 0x1_0000_0000
      requires t == Landscape ==> iboLen / MaxInd <= 1
      modifies this`objects, this`buckets, this`cmd, this`gpu, this`clusters
      ensures Valid() && !commited && id < |objects| && SlotTaken(objs0, objects, id)
      ensures BucketAllocated(objs0, old(buckets), old(cmd), old(clusters), old(gpu), objects, buckets, cmd,
                              clusters, gpu, mesh, mat, t, iboOff, iboLen, radius, slot)
    {
      var o, bks, cmds, cls, calls := BucketTables(objs0, objects, id, buckets, cmd, clusters, ord, indirect, totalPayload, com0,
                                                   gpu, mesh, mat, iboOff, iboLen, radius, slot, t);
      SlotTakenSet(objs0, objects, id, o);
      objects, buckets, cmd, clusters, gpu := objects[id := o], bks, cmds, cls, gpu + calls;
      assert Core();
    }

    /** Register the handle alloc returns for slot `id`, which was free in
        `objs0`. */
    ghost method Adopt(objs0: seq<Object>, id: nat, item: Item)
      requires OwnedBy(this, objs0, handles) && SlotTaken(objs0, objects, id)
      requires id < |objs0| ==> IsEmpty(objs0[id])
      requires item !in handles.Values
      requires item.owner == null <==> IsEmpty(objects[id])
      requires item.owner != null ==> item.owner == this && item.id == id
      modifies this`handles
      ensures Owned()
      ensures handles == if item.owner == null then old(handles) else old(handles)[id := item]
    {
      if item.owner != null {
        handles := handles[id := item];
      }
      forall k: nat | k != id
        ensures k < |objects| && !IsEmpty(objects[k]) <==> k < |objs0| && !IsEmpty(objs0[k])
      {
        if k < |objects| && k < |objs0| {
          assert objects[k] == objs0[k];
        }
      }
    }

    /** alloc for an animated mesh: an empty handle, and no table changes. */
    method AllocAnim(mesh: MeshId, mat: Material, anim: nat, iboOff: nat, iboLen: nat) returns (item: Item)
      ensures fresh(item) && item.owner == null && item.id == 0
    {
      item := new Item();
    }

    /** free: take the object's meshlets off its command, reset its
        clusters, empty its slot and drop the trailing empty slots. */
    method Free(id: nat)
      requires Valid() && Owned() && IsLive(id)
      modifies this`objects, this`cmd, this`clusters, this`commited, this`freed, this`handles
      ensures Valid() && Owned() && !commited && freed == old(freed) + [id]
      ensures handles == old(handles) - {id}
      ensures var o := old(objects[id]);
        && o.cmdId < |old(cmd)| && MeshletCount(o) <= old(cmd)[o.cmdId].maxPayload
        && cmd == Debited(old(cmd), o)
        && clusters == Tombstoned(old(clusters), o.clusterId, NumClusters(o))
        && objects == TrimTail(old(objects)[id := EmptyObject])
    {
      ghost var objs0 := objects;
      FreeTables(id);
      Release(objs0, id);
    }

    /** The table updates of free. */
    method FreeTables(id: nat)
      requires Valid() && IsLive(id)
      modifies this`objects, this`cmd, this`clusters, this`commited, this`freed
      ensures Valid() && !commited && freed == old(freed) + [id]
      ensures var o := old(objects[id]);
        && o.cmdId < |old(cmd)| && MeshletCount(o) <= old(cmd)[o.cmdId].maxPayload
        && cmd == Debited(old(cmd), o)
        && clusters == Tombstoned(old(clusters), o.clusterId, NumClusters(o))
        && objects == TrimTail(old(objects)[id := EmptyObject])
    {
      var objs0, cmds0, cl0 := objects, cmd, clusters;
      commited := false;
      var objs, cmds, cl := ReleaseTables(objs0, buckets, cmds0, cl0, ord, indirect, totalPayload, commited, id);
      objects, cmd, clusters, freed := objs, cmds, cl, freed + [id];
    }

    /** Drop the registration of the object free released. */
    ghost method Release(objs0: seq<Object>, id: nat)
      requires OwnedBy(this, objs0, handles) && id < |objs0|
      requires objects == TrimTail(objs0[id := EmptyObject])
      modifies this`handles
      ensures Owned() && handles == old(handles) - {id}
    {
      handles := handles - {id};
      forall j: nat
        ensures var objs' := TrimTail(objs0[id := EmptyObject]);
          && (id < |objs'| ==> IsEmpty(objs'[id]))
          && (j != id ==> (j < |objs'| && !IsEmpty(objs'[j]) <==> j < |objs0| && !IsEmpty(objs0[j])))
      {
        ReleaseOthers(objs0, id, j);
      }
    }

    /** updateInstance: write the object's transform into its instance
        slot and move its culling record to its translation; Landscape
        objects are left alone. */
    method UpdateInstance(id: nat)
      requires Core() && Synced(objects, clusters, id) && IsLive(id)
      modifies this`clusters, this`commited, this`gpu
      ensures Valid()
      ensures objects[id].objType == Landscape ==>
        clusters == old(clusters) && commited == old(commited) && gpu == old(gpu)
      ensures objects[id].objType != Landscape ==>
        && !commited
        && gpu == old(gpu) + [InstanceWrite(objects[id].instance, objects[id].pos)]
        && objects[id].clusterId < |old(clusters)|
        && clusters == old(clusters)[objects[id].clusterId := old(clusters)[objects[id].clusterId].(pos := objects[id].pos.translation)]
    {
      var o := objects[id];
      if o.objType == Landscape {
        return;
      }
      gpu := gpu + [InstanceWrite(o.instance, o.pos)];
      var cl := clusters;
      ResyncStep(objects, buckets, cmd, cl, id);
      clusters := cl[o.clusterId := cl[o.clusterId].(pos := o.pos.translation)];
      commited := false;
    }

    /** commit: nothing while the tables are committed; otherwise the
        tables become committed, and a non-empty command table gets its
        payload offsets, indirect table and alpha order, after which the
        device is drained and the GPU-side tables provisioned. */
    method Commit()
      requires Valid()
      modifies this`commited, this`cmd, this`indirect, this`totalPayload, this`ord, this`gpu
      ensures Valid() && commited && Published()
      ensures old(commited) || old(cmd) == [] ==>
        cmd == old(cmd) && ord == old(ord) && indirect == old(indirect) && totalPayload == old(totalPayload) && gpu == old(gpu)
      ensures !old(commited) && old(cmd) != [] ==>
        && |cmd| == |old(cmd)|
        && (forall k :: 0 <= k < |cmd| ==> cmd[k] == old(cmd)[k].(firstPayload := cmd[k].firstPayload))
        && gpu == old(gpu) + [WaitIdle, Provision(clusters, totalPayload, indirect)]
    {
      if commited {
        return;
      }
      commited := true;
      if cmd == [] {
        return;
      }
      Upload();
    }

    /** The part of commit that runs on a non-empty command table. */
    method Upload()
      requires CoreOf(objects, buckets, cmd, clusters, ord, indirect, totalPayload, false)
      requires Synced(objects, clusters, -1) && commited
      modifies this`cmd, this`indirect, this`totalPayload, this`ord, this`gpu
      ensures Valid() && Published()
      ensures |cmd| == |old(cmd)|
      ensures forall k :: 0 <= k < |cmd| ==> cmd[k] == old(cmd)[k].(firstPayload := cmd[k].firstPayload)
      ensures gpu == old(gpu) + [WaitIdle, Provision(clusters, totalPayload, indirect)]
    {
      var objs, bks, cmds0, cl, log := objects, buckets, cmd, clusters, gpu;
      var cmds, o, cx, total := Publish(objs, bks, cmds0, cl);
      cmd, ord, indirect, totalPayload, gpu := cmds, o, cx, total, log + [WaitIdle, Provision(cl, total, cx)];
    }

    /** drawGBuffer: the main view, with the colour pipelines. */
    method DrawGBuffer() returns (calls: seq<DrawCall>)
      requires Core()
      ensures calls == Plan(ord, cmd, VMain)
      ensures forall i :: 0 <= i < |calls| ==>
        calls[i].pipeline in {ClusterLndGBuf, ClusterObjGBuf, ClusterLndGBufAt, ClusterObjGBufAt}
    {
      AllDrawable(cmd, VMain);
      calls := DrawPass(ord, cmd, VMain);
      GBufferPlan(ord, cmd);
    }

    /** drawShadow: shadow layer 0 or 1, with the depth pipelines. */
    method DrawShadow(layer: nat) returns (calls: seq<DrawCall>)
      requires Core() && layer < 2
      ensures var v := if layer == 0 then VShadow0 else VShadow1;
        calls == Plan(ord, cmd, v)
      ensures forall i :: 0 <= i < |calls| ==> calls[i].pipeline in {ClusterDepth, ClusterDepthAt}
    {
      var v := if layer == 0 then VShadow0 else VShadow1;
      AllDrawable(cmd, v);
      calls := DrawPass(ord, cmd, v);
      ShadowPlan(ord, cmd, v);
    }
  }

  /** The handle alloc returns.  It owns object `id` of `owner`, or
      nothing when `owner` is null; moves transfer ownership and the
      destructor frees the owned object. */
  class Item {
    var owner: DrawStorage?
    var id: nat

    /** Item(): owns nothing. */
    constructor ()
      ensures owner == null && id == 0
    {
      owner, id := null, 0;
    }

    /** The handle alloc returns: owned by `s` for a live object, empty
        (Item()) otherwise. */
    constructor Handle(s: DrawStorage, id: nat, live: bool)
      ensures live ==> owner == s && this.id == id
      ensures !live ==> owner == null && this.id == 0
    {
      if live {
        owner, this.id := s, id;
      } else {
        owner, this.id := null, 0;
      }
    }

    /** Item(Item&&): take over `other`'s object and leave `other` empty;
        the storage's registry now names the new handle. */
    constructor Move(other: Item)
      requires other.Attached()
      modifies other, ({other.owner} - {null})`handles
      ensures owner == old(other.owner) && id == old(other.id)
      ensures other.owner == null && other.id == 0
      ensures Attached() && other.Attached()
      ensures old(other.owner) != null ==> owner.handles == old(other.owner.handles)[id := this]
    {
      owner, id := other.owner, other.id;
      new;
      other.owner, other.id := null, 0;
      if owner != null {
        owner.handles := owner.handles[id := this];
      }
    }

    /** Take over `other`'s object into this empty handle, leaving
        `other` empty: one step of a move, which leaves any third handle
        `keep` attached. */
    method TakeFrom(other: Item, ghost keep: Item)
      requires owner == null && other.Attached() && this != other
      requires keep.Attached() && keep != this && keep != other
      modifies this, other, ({other.owner} - {null})`handles
      ensures owner == old(other.owner) && id == old(other.id)
      ensures other.owner == null && other.id == 0
      ensures Attached() && keep.Attached()
      ensures old(other.owner) != null ==> owner.handles == old(other.owner.handles)[id := this]
    {
      var s, i := other.owner, other.id;
      if s == null {
        owner, id := null, i;
        other.id := 0;
        return;
      }
      NotRegistered(s, s.objects, s.handles, this);
      if keep.owner != null && keep.owner != s {
        NotRegistered(keep.owner, keep.owner.objects, keep.owner.handles, this);
        NotRegistered(keep.owner, keep.owner.objects, keep.owner.handles, other);
      }
      owner, id := s, i;
      other.owner, other.id := null, 0;
      s.handles := s.handles[i := this];
      Rebound(this);
      if keep.owner == s {
        assert keep.id in old(s.handles) && old(s.handles[keep.id]) == keep;
      } else if keep.owner != null {
        StaysOwned(keep.owner);
      }
    }

    /** operator=(Item&&): swap the two handles, so the object this handle
        owned is freed when `other` is destroyed. The swap goes through an
        empty handle, one object at a time. */
    method MoveAssign(other: Item)
      requires Attached() && other.Attached()
      modifies this, other, ({owner, other.owner} - {null})`handles
      ensures owner == old(other.owner) && id == old(other.id)
      ensures other.owner == old(owner) && other.id == old(id)
      ensures Attached() && other.Attached()
      ensures old(owner) != null && old(owner) == old(other.owner) ==>
        old(owner).handles == old(owner.handles)[old(id) := other][old(other.id) := this]
      ensures old(owner) != null && old(owner) != old(other.owner) ==>
        old(owner).handles == old(owner.handles)[old(id) := other]
      ensures old(other.owner) != null && old(owner) != old(other.owner) ==>
        old(other.owner).handles == old(other.owner.handles)[old(other.id) := this]
    {
      if this == other {
        if owner != null {
          UpdateSame(owner.handles, id, this);
        }
        return;
      }
      ghost var s1, s2, i1, i2 := owner, other.owner, id, other.id;
      ghost var h1: map<nat, Item> := if s1 != null then s1.handles else map[];
      ghost var h2: map<nat, Item> := if s2 != null then s2.handles else map[];
      if s1 != null && s1 == s2 {
        assert i1 != i2 by {
          if i1 == i2 {
            OneOwner(this, other);
          }
        }
      }
      var tmp := new Item();
      tmp.TakeFrom(this, other);
      ghost var g1: map<nat, Item> := if s1 != null then s1.handles else map[];
      TakeFrom(other, tmp);
      assert s1 != null && s1 != s2 ==> s1.handles == g1;
      other.TakeFrom(tmp, this);
      if s1 != null && s1 == s2 {
        UpdateSwap(h1, i1, i2, tmp, this, other);
      } else if s1 != null {
        assert g1 == h1[i1 := tmp];
        UpdateTwice(h1, i1, tmp, other);
      }
    }

    predicate IsEmpty()
      reads this
    {
      owner == null
    }

    /** The storage holds the object this handle owns, and this handle is
        the one its registry names for it. */
    ghost predicate Attached()
      reads this, owner, if owner != null then owner.handles.Values else {}
    {
      owner != null ==>
        && owner.Owned() && owner.IsLive(id)
        && id in owner.handles && owner.handles[id] == this
    }

    /** Attached, to a storage that keeps its invariant. */
    ghost predicate Usable()
      reads this, owner, if owner != null then owner.handles.Values else {}
    {
      Attached() && (owner != null ==> owner.Valid())
    }

    /** ~Item: an owning handle frees its object; no other table than the
        ones free updates changes. */
    method Destroy()
      requires Usable()
      modifies owner
      ensures owner != null ==>
        var o := old(owner.objects[id]);
        && owner.Valid() && owner.Owned() && !owner.IsLive(id) && !Attached()
        && owner.handles == old(owner.handles) - {id}
        && owner.freed == old(owner.freed) + [id]
        && owner.objects == TrimTail(old(owner.objects)[id := EmptyObject])
        && o.cmdId < |old(owner.cmd)| && MeshletCount(o) <= old(owner.cmd)[o.cmdId].maxPayload
        && owner.cmd == Debited(old(owner.cmd), o)
        && owner.clusters == Tombstoned(old(owner.clusters), o.clusterId, NumClusters(o))
        && !owner.commited
        && unchanged(owner`buckets, owner`ord, owner`indirect, owner`totalPayload, owner`gpu)
    {
      if owner != null {
        ghost var objs0 := owner.objects;
        owner.Free(id);
        ReleaseOthers(objs0, id, id);
      }
    }

    /** setObjMatrix: store the new transform and resynchronise the
        object's culling record. */
    method SetObjMatrix(m: Matrix)
      requires Usable()
      modifies owner
      ensures Usable()
      ensures owner != null ==>
        var o := old(owner.objects[id]);
        && owner.objects == old(owner.objects)[id := o.(pos := m)]
        && (o.objType == Landscape ==>
              owner.clusters == old(owner.clusters) && owner.commited == old(owner.commited) && owner.gpu == old(owner.gpu))
        && (o.objType != Landscape ==>
              && o.clusterId < |old(owner.clusters)| && !owner.commited
              && owner.gpu == old(owner.gpu) + [InstanceWrite(o.instance, m)]
              && owner.clusters == old(owner.clusters)[o.clusterId := old(owner.clusters)[o.clusterId].(pos := m.translation)])
        && unchanged(owner`buckets, owner`cmd, owner`ord, owner`indirect, owner`totalPayload,
                     owner`freed, owner`handles)
    {
      if owner != null {
        var s := owner;
        MoveStep(s.objects, s.buckets, s.cmd, s.clusters, id, m);
        s.objects := s.objects[id := s.objects[id].(pos := m)];
        s.UpdateInstance(id);
      }
    }

    /** material(): the material of the object's bucket. */
    function MaterialOf(): (m: Material)
      reads this, owner, if owner != null then owner.handles.Values else {}
      requires Usable()
      ensures owner == null ==> m == DefaultMaterial
      ensures owner != null ==> owner.objects[id].bucketId < |owner.buckets|
                                && m == owner.buckets[owner.objects[id].bucketId].mat
    {
      if owner == null then DefaultMaterial
      else
        assert ObjectOk(owner.objects[id], |owner.cmd|, |owner.buckets|, owner.clusters);
        owner.buckets[owner.objects[id].bucketId].mat
    }

    /** position(): the object's transform. */
    function Position(): (p: Matrix)
      reads this, owner, if owner != null then owner.handles.Values else {}
      requires Usable()
      ensures owner != null ==> p == owner.objects[id].pos
      ensures owner == null ==> p == Identity
    {
      if owner != null then owner.objects[id].pos else Identity
    }

    /** mesh(): the bucket's static mesh, none for an animated bucket or
        an empty handle. */
    function Mesh(): (r: Option<MeshId>)
      reads this, owner, if owner != null then owner.handles.Values else {}
      requires Usable()
      ensures owner == null ==> r == None
      ensures owner != null ==> owner.objects[id].bucketId < |owner.buckets|
                                && (r.Some? <==> owner.buckets[owner.objects[id].bucketId].mesh.StaticMesh?)
                                && (r.Some? ==> owner.buckets[owner.objects[id].bucketId].mesh == StaticMesh(r.value))
    {
      if owner == null then None
      else
        assert ObjectOk(owner.objects[id], |owner.cmd|, |owner.buckets|, owner.clusters);
        match owner.buckets[owner.objects[id].bucketId].mesh
        case StaticMesh(x) => Some(x)
        case AnimMesh(_) => None
    }

    /** meshSlice(): the object's index range, (0, 0) for an empty handle. */
    function MeshSlice(): (r: (nat, nat))
      reads this, owner, if owner != null then owner.handles.Values else {}
      requires Usable()
      ensures owner == null ==> r == (0, 0)
      ensures owner != null ==> r == (owner.objects[id].iboOff, owner.objects[id].iboLen)
    {
      if owner == null then (0, 0) else (owner.objects[id].iboOff, owner.objects[id].iboLen)
    }
  }

  /** The registry's slots are exactly the live objects. */
  lemma RegisteredIffLive(s: DrawStorage, k: nat)
    requires s.Owned()
    ensures k in s.handles <==> s.IsLive(k)
  {
  }

  /** Each registered handle is attached to its own slot. */
  lemma RegisteredAttached(s: DrawStorage, k: nat)
    requires s.Owned() && k in s.handles
    ensures s.handles[k].owner == s && s.handles[k].id == k && s.handles[k].Attached()
  {
  }

  /** Map-update identities used by MoveAssign. */
  lemma UpdateSame(m: map<nat, Item>, k: nat, v: Item)
    requires k in m && m[k] == v
    ensures m[k := v] == m
  {
  }

  lemma UpdateTwice(m: map<nat, Item>, k: nat, a: Item, b: Item)
    ensures m[k := a][k := b] == m[k := b]
  {
  }

  lemma UpdateSwap(m: map<nat, Item>, i: nat, j: nat, a: Item, b: Item, c: Item)
    requires i != j
    ensures m[i := a][j := b][i := c] == m[i := c][j := b]
  {
  }

  /** At most one attached handle owns a given object, so it is freed
      once. */
  lemma OneOwner(h1: Item, h2: Item)
    requires h1.Attached() && h2.Attached()
    requires h1.owner != null && h1.owner == h2.owner && h1.id == h2.id
    ensures h1 == h2
  {
  }
}
