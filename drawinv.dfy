/** The invariants that tie the draw storage's four tables together, and
    the lemmas that show each table operation keeps them. */
module DrawInvariants {
  import opened Types
  import opened Pipelines
  import opened DrawTables

  /** Payload accounting: each command's `maxPayload` is the meshlet count
      of the clusters it owns, and a cluster that names no existing command
      carries no meshlets. */
  ghost predicate PayloadInv(cl: seq<Cluster>, cmds: seq<DrawCmd>)
  {
    && (forall c :: 0 <= c < |cmds| ==> Payload(cl, c) == cmds[c].maxPayload)
    && (forall q :: 0 <= q < |cl| ==> cl[q].commandId < |cmds| || cl[q].meshletCount == 0)
  }

  /** A live object names an existing bucket and command, and owns the
      cluster range `free` will reset: `NumClusters` slots owned by its
      command whose meshlets add up to the object's meshlet count. */
  ghost predicate ObjectOk(o: Object, nc: nat, nb: nat, cl: seq<Cluster>)
  {
    IsEmpty(o) ||
    (&& o.cmdId < nc
     && o.bucketId < nb
     && o.clusterId + NumClusters(o) <= |cl|
     && (forall q :: o.clusterId <= q < o.clusterId + NumClusters(o) ==>
           cl[q].commandId == o.cmdId && (o.objType == Landscape ==> cl[q].meshletCount == 1))
     && (o.objType != Landscape ==> cl[o.clusterId].meshletCount == MeshletCount(o)))
  }

  ghost predicate Disjoint(a: Object, b: Object)
  {
    a.clusterId + NumClusters(a) <= b.clusterId || b.clusterId + NumClusters(b) <= a.clusterId
  }

  ghost predicate ObjectsInv(objs: seq<Object>, nc: nat, nb: nat, cl: seq<Cluster>)
  {
    && (forall i :: 0 <= i < |objs| ==> ObjectOk(objs[i], nc, nb, cl))
    && (forall i, j :: 0 <= i < j < |objs| && !IsEmpty(objs[i]) && !IsEmpty(objs[j]) ==>
          Disjoint(objs[i], objs[j]))
  }

  /** The views a new command gets a binding set for. */
  function BindingsFor(pc: Option<Pipeline>, pd: Option<Pipeline>): set<View>
  {
    (if pc.Some? then {VMain} else {}) + (if pd.Some? then {VShadow0, VShadow1} else {})
  }

  /** The six (colour, depth) pairs the pipeline lookup can produce. */
  const ValidPairs: set<(Option<Pipeline>, Option<Pipeline>)> :=
    {(Some(ClusterLndGBuf), Some(ClusterDepth)), (Some(ClusterObjGBuf), Some(ClusterDepth)),
     (None, Some(ClusterDepth)), (Some(ClusterLndGBufAt), Some(ClusterDepthAt)),
     (Some(ClusterObjGBufAt), Some(ClusterDepthAt)), (None, Some(ClusterDepthAt))}

  function PairOf(x: DrawCmd): (Option<Pipeline>, Option<Pipeline>)
  {
    (x.psoColor, x.psoDepth)
  }

  ghost predicate CommandOk(x: DrawCmd)
  {
    && PairOf(x) in ValidPairs
    && x.bindings == BindingsFor(x.psoColor, x.psoDepth)
    && (x.psoDepth == Some(ClusterDepth) <==> x.alpha == Solid)
    && (x.psoDepth == Some(ClusterDepthAt) <==> x.alpha == AlphaTest)
  }

  /** Commands are well formed and no two share a pipeline pair. */
  ghost predicate CommandsInv(cmds: seq<DrawCmd>)
  {
    && (forall c :: 0 <= c < |cmds| ==> CommandOk(cmds[c]))
    && (forall i, j :: 0 <= i < j < |cmds| ==> PairOf(cmds[i]) != PairOf(cmds[j]))
  }

  /** Whatever the lookup returns for an opaque material is a valid pair. */
  lemma PairValid(m: Material, t: ObjType)
    requires Opaque(m.alpha)
    ensures (PipelineColor(m, t), PipelineDepth(m, t)) in ValidPairs
  {
  }

  lemma {:induction false} DistinctBound<T>(s: seq<T>, S: set<T>)
    requires forall k :: 0 <= k < |s| ==> s[k] in S
    requires forall i, j :: 0 <= i < j < |s| ==> s[i] != s[j]
    ensures |s| <= |S|
  {
    if s != [] {
      forall k | 0 <= k < |s[1..]| ensures s[1..][k] in S - {s[0]} {
        assert s[1..][k] == s[k + 1];
      }
      DistinctBound(s[1..], S - {s[0]});
    }
  }

  lemma ValidPairsCount()
    ensures |ValidPairs| == 6
  {
  }

  /** At most six commands ever exist, so a 16-bit command id never reaches
      the 0xFFFF sentinel. */
  lemma CommandCountBound(cmds: seq<DrawCmd>)
    requires CommandsInv(cmds)
    ensures |cmds| <= 6
  {
    var pairs := seq(|cmds|, k requires 0 <= k < |cmds| => PairOf(cmds[k]));
    assert forall i, j :: 0 <= i < j < |pairs| ==> pairs[i] != pairs[j] by {
      forall i, j | 0 <= i < j < |pairs| ensures pairs[i] != pairs[j] {
        assert pairs[i] == PairOf(cmds[i]) && pairs[j] == PairOf(cmds[j]);
      }
    }
    DistinctBound(pairs, ValidPairs);
    ValidPairsCount();
  }

  /** The clusters a live object owns carry exactly its meshlet count for
      its own command and nothing for any other. */
  lemma RangePayload(o: Object, nc: nat, nb: nat, cl: seq<Cluster>, c: nat)
    requires ObjectOk(o, nc, nb, cl) && !IsEmpty(o)
    ensures Payload(cl[o.clusterId..o.clusterId + NumClusters(o)], c) ==
            if c == o.cmdId then MeshletCount(o) else 0
  {
    var r := cl[o.clusterId..o.clusterId + NumClusters(o)];
    if c != o.cmdId {
      PayloadForeign(r, c);
    } else if o.objType == Landscape {
      PayloadOnes(r, c);
    } else {
      assert r == [cl[o.clusterId]];
      PayloadSingle(cl[o.clusterId], c);
    }
  }

  /** Appending clusters keeps every object's view of the table. */
  lemma ObjectOkExtend(o: Object, nc: nat, nc': nat, nb: nat, nb': nat, cl: seq<Cluster>, cl': seq<Cluster>)
    requires ObjectOk(o, nc, nb, cl)
    requires nc <= nc' && nb <= nb' && |cl| <= |cl'| && cl'[..|cl|] == cl
    ensures ObjectOk(o, nc', nb', cl')
  {
    if !IsEmpty(o) {
      forall q | o.clusterId <= q < o.clusterId + NumClusters(o) ensures cl'[q] == cl[q] {
        assert cl'[..|cl|][q] == cl'[q];
      }
    }
  }

  lemma ObjectsInvExtend(objs: seq<Object>, nc: nat, nc': nat, nb: nat, nb': nat, cl: seq<Cluster>, cl': seq<Cluster>)
    requires ObjectsInv(objs, nc, nb, cl)
    requires nc <= nc' && nb <= nb' && |cl| <= |cl'| && cl'[..|cl|] == cl
    ensures ObjectsInv(objs, nc', nb', cl')
  {
    forall i | 0 <= i < |objs| ensures ObjectOk(objs[i], nc', nb', cl') {
      ObjectOkExtend(objs[i], nc, nc', nb, nb', cl, cl');
    }
  }

  /** Clusters appended for command `c` add their meshlets to `c` only. */
  lemma PayloadInvAppend(cl: seq<Cluster>, cmds: seq<DrawCmd>, extra: seq<Cluster>, c: nat, m: nat)
    requires PayloadInv(cl, cmds) && c < |cmds|
    requires forall k :: 0 <= k < |extra| ==> extra[k].commandId == c
    requires Payload(extra, c) == m
    ensures PayloadInv(cl + extra, cmds[c := cmds[c].(maxPayload := cmds[c].maxPayload + m)])
  {
    var cmds' := cmds[c := cmds[c].(maxPayload := cmds[c].maxPayload + m)];
    forall c' | 0 <= c' < |cmds'| ensures Payload(cl + extra, c') == cmds'[c'].maxPayload {
      PayloadAppend(cl, extra, c');
      if c' != c {
        PayloadForeign(extra, c');
      }
    }
    forall q | 0 <= q < |cl + extra| ensures (cl + extra)[q].commandId < |cmds'| || (cl + extra)[q].meshletCount == 0 {
      if q >= |cl| {
        assert (cl + extra)[q] == extra[q - |cl|];
      }
    }
  }

  /** A new command with no payload keeps the accounting. */
  lemma PayloadInvNewCommand(cl: seq<Cluster>, cmds: seq<DrawCmd>, x: DrawCmd)
    requires PayloadInv(cl, cmds) && x.maxPayload == 0
    ensures PayloadInv(cl, cmds + [x])
  {
    PayloadZero(cl, |cmds|);
  }

  lemma {:induction false} PayloadZero(s: seq<Cluster>, c: nat)
    requires forall k :: 0 <= k < |s| ==> Contrib(s[k], c) == 0
    ensures Payload(s, c) == 0
  {
    if s != [] {
      PayloadZero(s[..|s| - 1], c);
    }
  }

  /** The slot implAlloc picks: the lowest empty one, or one past the end. */
  function FirstFree(objs: seq<Object>): (k: nat)
    ensures k <= |objs|
    ensures forall j :: 0 <= j < k ==> !IsEmpty(objs[j])
    ensures k < |objs| ==> IsEmpty(objs[k])
  {
    if objs == [] then 0
    else if IsEmpty(objs[0]) then 0
    else 1 + FirstFree(objs[1..])
  }

  function SlotAt(objs: seq<Object>, id: nat): Object
  {
    if id < |objs| then objs[id] else EmptyObject
  }

  /** The fields alloc writes into its slot. */
  function Placed(o: Object, t: ObjType, off: nat, len: nat, b: nat, c: nat, cl: nat): Object
  {
    o.(objType := t, iboOff := off, iboLen := len, bucketId := b, cmdId := c, clusterId := cl)
  }

  /** Writing a well-formed object into an empty slot keeps the object
      invariant when its clusters overlap no live object's. */
  lemma ObjectsInvPlace(objs: seq<Object>, id: nat, o: Object, nc: nat, nb: nat, cl: seq<Cluster>)
    requires ObjectsInv(objs, nc, nb, cl) && id < |objs|
    requires ObjectOk(o, nc, nb, cl)
    requires !IsEmpty(o) ==> forall j :: 0 <= j < |objs| && j != id && !IsEmpty(objs[j]) ==> Disjoint(objs[j], o)
    ensures ObjectsInv(objs[id := o], nc, nb, cl)
  {
    var objs' := objs[id := o];
    forall i, j | 0 <= i < j < |objs'| && !IsEmpty(objs'[i]) && !IsEmpty(objs'[j])
      ensures Disjoint(objs'[i], objs'[j])
    {
      if i == id {
        assert Disjoint(objs[j], o);
      } else if j == id {
        assert Disjoint(objs[i], o);
      }
    }
  }

  /** FirstFree is the only index its contract describes. */
  lemma FirstFreeUnique(objs: seq<Object>, k: nat)
    requires k <= |objs|
    requires forall j :: 0 <= j < k ==> !IsEmpty(objs[j])
    requires k < |objs| ==> IsEmpty(objs[k])
    ensures FirstFree(objs) == k
  {
  }

  /** Payload counters are not part of a command's identity. */
  lemma CommandsInvPayload(cmds: seq<DrawCmd>, c: nat, v: nat)
    requires CommandsInv(cmds) && c < |cmds|
    ensures CommandsInv(cmds[c := cmds[c].(maxPayload := v)])
  {
    var cmds' := cmds[c := cmds[c].(maxPayload := v)];
    assert forall k :: 0 <= k < |cmds| ==> PairOf(cmds'[k]) == PairOf(cmds[k]);
  }

  /** A Landscape object placed over freshly appended single-meshlet
      clusters of its command is well formed and lies past every older
      cluster. */
  lemma LandscapeRange(o: Object, nc: nat, nb: nat, cl: seq<Cluster>, r: nat)
    requires o.objType == Landscape && !IsEmpty(o) && o.cmdId < nc && o.bucketId < nb
    requires o.clusterId == r && r + MeshletCount(o) == |cl|
    requires forall q :: r <= q < |cl| ==> cl[q].commandId == o.cmdId && cl[q].meshletCount == 1
    ensures ObjectOk(o, nc, nb, cl)
  {
  }

  /** Rewriting a cluster's position, radius or instance slot leaves both
      the payload accounting and every object's view of the table intact. */
  lemma ClusterRetag(objs: seq<Object>, cmds: seq<DrawCmd>, nb: nat, cl: seq<Cluster>, q: nat, x: Cluster)
    requires PayloadInv(cl, cmds) && ObjectsInv(objs, |cmds|, nb, cl) && q < |cl|
    requires x.commandId == cl[q].commandId && x.meshletCount == cl[q].meshletCount
    ensures PayloadInv(cl[q := x], cmds) && ObjectsInv(objs, |cmds|, nb, cl[q := x])
  {
    forall c | 0 <= c < |cmds| ensures Payload(cl[q := x], c) == cmds[c].maxPayload {
      PayloadUpdate(cl, q, x, c);
    }
    forall i | 0 <= i < |objs| ensures ObjectOk(objs[i], |cmds|, nb, cl[q := x]) {
      assert ObjectOk(objs[i], |cmds|, nb, cl);
    }
  }

  /** Emptying a live object's slot and rewriting only its own clusters
      keeps every other object well formed. */
  lemma ObjectsInvRelease(objs: seq<Object>, id: nat, nc: nat, nb: nat, cl: seq<Cluster>, cl': seq<Cluster>)
    requires ObjectsInv(objs, nc, nb, cl) && id < |objs| && !IsEmpty(objs[id])
    requires |cl'| == |cl|
    requires forall q :: 0 <= q < |cl| && !(objs[id].clusterId <= q < objs[id].clusterId + NumClusters(objs[id])) ==>
               cl'[q] == cl[q]
    ensures ObjectsInv(objs[id := EmptyObject], nc, nb, cl')
  {
    var o := objs[id];
    forall j | 0 <= j < |objs| && j != id ensures ObjectOk(objs[j], nc, nb, cl') {
      if !IsEmpty(objs[j]) {
        assert Disjoint(objs[j], o) by {
          if j < id {
            assert Disjoint(objs[j], objs[id]);
          } else {
            assert Disjoint(objs[id], objs[j]);
          }
        }
        assert ObjectOk(objs[j], nc, nb, cl);
      }
    }
  }

  /** Dropping trailing slots keeps the invariant. */
  lemma ObjectsInvPrefix(objs: seq<Object>, n: nat, nc: nat, nb: nat, cl: seq<Cluster>)
    requires ObjectsInv(objs, nc, nb, cl) && n <= |objs|
    ensures ObjectsInv(objs[..n], nc, nb, cl)
  {
    assert forall i :: 0 <= i < n ==> objs[..n][i] == objs[i];
  }

  /** Resetting a live object's clusters to zero-meshlet slots takes its
      meshlets off its command and nothing off any other. */
  lemma {:induction false} PayloadInvRelease(cmds: seq<DrawCmd>, nb: nat, cl: seq<Cluster>, cl': seq<Cluster>, o: Object)
    requires PayloadInv(cl, cmds) && ObjectOk(o, |cmds|, nb, cl) && !IsEmpty(o)
    requires |cl'| == |cl|
    requires forall q :: 0 <= q < |cl| ==> cl'[q] == cl[q] || cl'[q].meshletCount == 0
    requires forall c :: Payload(cl', c) + Payload(cl[o.clusterId..o.clusterId + NumClusters(o)], c) == Payload(cl, c)
    ensures MeshletCount(o) <= cmds[o.cmdId].maxPayload
    ensures PayloadInv(cl', cmds[o.cmdId := cmds[o.cmdId].(maxPayload := cmds[o.cmdId].maxPayload - MeshletCount(o))])
  {
    RangePayload(o, |cmds|, nb, cl, o.cmdId);
    var cmds' := cmds[o.cmdId := cmds[o.cmdId].(maxPayload := cmds[o.cmdId].maxPayload - MeshletCount(o))];
    forall c | 0 <= c < |cmds'| ensures Payload(cl', c) == cmds'[c].maxPayload {
      RangePayload(o, |cmds|, nb, cl, c);
    }
  }

  /** An object placed over one freshly appended cluster that carries all
      its meshlets is well formed, provided a Landscape object has at most
      one meshlet (free resets one slot per Landscape meshlet). */
  lemma BucketRange(o: Object, nc: nat, nb: nat, cl: seq<Cluster>, r: nat)
    requires !IsEmpty(o) && o.cmdId < nc && o.bucketId < nb
    requires o.clusterId == r && r + 1 == |cl|
    requires cl[r].commandId == o.cmdId && cl[r].meshletCount == MeshletCount(o)
    requires o.objType == Landscape ==> MeshletCount(o) <= 1
    ensures ObjectOk(o, nc, nb, cl)
  {
  }

  /** `objs` is `objs0` with slot `id` taken: a reused slot keeps the
      length, a slot one past the end extends the table by one, and every
      other slot is unchanged. */
  ghost predicate SlotTaken(objs0: seq<Object>, objs: seq<Object>, id: nat)
  {
    && id <= |objs0| && id < |objs|
    && |objs| == (if id < |objs0| then |objs0| else id + 1)
    && (forall j :: 0 <= j < |objs| && j != id ==> objs[j] == objs0[j])
  }

  lemma SlotTakenSet(objs0: seq<Object>, objs: seq<Object>, id: nat, o: Object)
    requires SlotTaken(objs0, objs, id)
    ensures SlotTaken(objs0, objs[id := o], id)
  {
  }

  /** Every live object's clusters end at or before index `q`. */
  ghost predicate RangesBelow(objs: seq<Object>, q: nat)
  {
    forall j :: 0 <= j < |objs| && !IsEmpty(objs[j]) ==> objs[j].clusterId + NumClusters(objs[j]) <= q
  }

  /** Live objects own clusters of the table, so they all end within it. */
  lemma ObjectsEnd(objs: seq<Object>, nc: nat, nb: nat, cl: seq<Cluster>)
    requires ObjectsInv(objs, nc, nb, cl)
    ensures RangesBelow(objs, |cl|)
  {
    forall j | 0 <= j < |objs| && !IsEmpty(objs[j]) ensures objs[j].clusterId + NumClusters(objs[j]) <= |cl| {
      assert ObjectOk(objs[j], nc, nb, cl);
    }
  }

  /** The four tables agree with each other, and an empty slot holds the
      default position. */
  ghost predicate TablesOk(objs: seq<Object>, bks: seq<Bucket>, cmds: seq<DrawCmd>, cl: seq<Cluster>)
  {
    && PayloadInv(cl, cmds)
    && ObjectsInv(objs, |cmds|, |bks|, cl)
    && CommandsInv(cmds)
    && (forall i :: 0 <= i < |objs| && IsEmpty(objs[i]) ==> objs[i].pos == Identity)
  }

  /** The culling record of every live instanced object, except possibly
      object `except`, sits at the object's translation. */
  ghost predicate Synced(objs: seq<Object>, cl: seq<Cluster>, except: int)
  {
    forall i :: 0 <= i < |objs| && i != except && !IsEmpty(objs[i]) && objs[i].objType != Landscape
                && objs[i].clusterId < |cl| ==>
      cl[objs[i].clusterId].pos == objs[i].pos.translation
  }

  /** implAlloc appending an empty slot. */
  lemma EmptySlotStep(objs: seq<Object>, bks: seq<Bucket>, cmds: seq<DrawCmd>, cl: seq<Cluster>, e: int)
    requires TablesOk(objs, bks, cmds, cl)
    ensures TablesOk(objs + [EmptyObject], bks, cmds, cl)
    ensures Synced(objs, cl, e) ==> Synced(objs + [EmptyObject], cl, e)
  {
    var objs' := objs + [EmptyObject];
    assert forall i :: 0 <= i < |objs| ==> objs'[i] == objs[i];
  }

  /** bucketId appending a bucket. */
  lemma BucketStep(objs: seq<Object>, bks: seq<Bucket>, cmds: seq<DrawCmd>, cl: seq<Cluster>, bks': seq<Bucket>)
    requires TablesOk(objs, bks, cmds, cl) && |bks| <= |bks'|
    ensures TablesOk(objs, bks', cmds, cl)
  {
    ObjectsInvExtend(objs, |cmds|, |cmds|, |bks|, |bks'|, cl, cl);
  }

  /** commandId appending a command with no payload yet. */
  lemma CommandStep(objs: seq<Object>, bks: seq<Bucket>, cmds: seq<DrawCmd>, cl: seq<Cluster>, x: DrawCmd)
    requires TablesOk(objs, bks, cmds, cl)
    requires CommandsInv(cmds + [x]) && x.maxPayload == 0
    ensures TablesOk(objs, bks, cmds + [x], cl)
  {
    PayloadInvNewCommand(cl, cmds, x);
    ObjectsInvExtend(objs, |cmds|, |cmds| + 1, |bks|, |bks|, cl, cl);
  }

  /** clusterId appending clusters of command `c` that carry `m` meshlets,
      which `c`'s payload grows by. */
  lemma ClusterStep(objs: seq<Object>, bks: seq<Bucket>, cmds: seq<DrawCmd>, cl: seq<Cluster>,
                    extra: seq<Cluster>, c: nat, m: nat, e: int)
    requires TablesOk(objs, bks, cmds, cl) && c < |cmds|
    requires forall k :: 0 <= k < |extra| ==> extra[k].commandId == c
    requires Payload(extra, c) == m
    ensures TablesOk(objs, bks, cmds[c := cmds[c].(maxPayload := cmds[c].maxPayload + m)], cl + extra)
    ensures Synced(objs, cl, e) ==> Synced(objs, cl + extra, e)
  {
    PayloadInvAppend(cl, cmds, extra, c, m);
    CommandsInvPayload(cmds, c, cmds[c].maxPayload + m);
    assert (cl + extra)[..|cl|] == cl;
    ObjectsInvExtend(objs, |cmds|, |cmds|, |bks|, |bks|, cl, cl + extra);
    if Synced(objs, cl, e) {
      forall i | 0 <= i < |objs| && i != e && !IsEmpty(objs[i]) && objs[i].objType != Landscape
        ensures (cl + extra)[objs[i].clusterId] == cl[objs[i].clusterId]
      {
        assert ObjectOk(objs[i], |cmds|, |bks|, cl);
      }
    }
  }

  /** Rewriting one cluster while keeping its command and meshlet count. */
  lemma RetagStep(objs: seq<Object>, bks: seq<Bucket>, cmds: seq<DrawCmd>, cl: seq<Cluster>, q: nat, x: Cluster, e: int)
    requires TablesOk(objs, bks, cmds, cl) && q < |cl|
    requires x.commandId == cl[q].commandId && x.meshletCount == cl[q].meshletCount
    ensures TablesOk(objs, bks, cmds, cl[q := x])
    ensures Synced(objs, cl, e) && x.pos == cl[q].pos ==> Synced(objs, cl[q := x], e)
  {
    ClusterRetag(objs, cmds, |bks|, cl, q, x);
  }

  /** alloc writing its object into the empty slot `id`. */
  lemma PlaceStep(objs: seq<Object>, bks: seq<Bucket>, cmds: seq<DrawCmd>, cl: seq<Cluster>, id: nat, o: Object, e: int)
    requires TablesOk(objs, bks, cmds, cl) && id < |objs| && IsEmpty(objs[id])
    requires ObjectOk(o, |cmds|, |bks|, cl)
    requires !IsEmpty(o) ==> RangesBelow(objs, o.clusterId)
    requires IsEmpty(o) ==> o.pos == Identity
    ensures TablesOk(objs[id := o], bks, cmds, cl)
    ensures Synced(objs, cl, e) && (!IsEmpty(o) && o.objType != Landscape ==> cl[o.clusterId].pos == o.pos.translation)
            ==> Synced(objs[id := o], cl, e)
  {
    if !IsEmpty(o) {
      forall j | 0 <= j < |objs| && j != id && !IsEmpty(objs[j]) ensures Disjoint(objs[j], o) {
      }
    }
    ObjectsInvPlace(objs, id, o, |cmds|, |bks|, cl);
  }

  /** The cluster table with slots `r` .. `r + n - 1` reset, as free does. */
  function Tombstoned(cl: seq<Cluster>, r: nat, n: nat): (cl': seq<Cluster>)
    ensures |cl'| == |cl|
    ensures forall q :: 0 <= q < |cl| ==> cl'[q] == if r <= q < r + n then Tombstone else cl[q]
  {
    seq(|cl|, q requires 0 <= q < |cl| => if r <= q < r + n then Tombstone else cl[q])
  }

  /** Reset slots carry no payload, so resetting a range takes exactly
      that range's payload off every command. */
  lemma PayloadTombstoned(cl: seq<Cluster>, r: nat, n: nat, c: nat)
    requires r + n <= |cl|
    ensures Payload(Tombstoned(cl, r, n), c) + Payload(cl[r..r + n], c) == Payload(cl, c)
  {
    var t := Tombstoned(cl, r, n);
    var lo, mid, hi, gap := cl[..r], cl[r..r + n], cl[r + n..], t[r..r + n];
    assert cl == lo + mid + hi;
    assert t == lo + gap + hi;
    forall k | 0 <= k < |gap| ensures Contrib(gap[k], c) == 0 {
      assert gap[k] == t[r + k];
    }
    PayloadZero(gap, c);
    PayloadAppend(lo + mid, hi, c);
    PayloadAppend(lo, mid, c);
    PayloadAppend(lo + gap, hi, c);
    PayloadAppend(lo, gap, c);
  }

  /** The object table after free's pop_back loop: the longest prefix that
      does not end in an empty slot. */
  function TrimTail(objs: seq<Object>): (r: seq<Object>)
    ensures |r| <= |objs| && r == objs[..|r|]
    ensures r == [] || !IsEmpty(r[|r| - 1])
    ensures forall j :: |r| <= j < |objs| ==> IsEmpty(objs[j])
  {
    if objs == [] || !IsEmpty(objs[|objs| - 1]) then objs else TrimTail(objs[..|objs| - 1])
  }

  /** free's new command table: the object's meshlets taken off its
      command's payload. */
  function Debited(cmds: seq<DrawCmd>, o: Object): seq<DrawCmd>
    requires o.cmdId < |cmds| && MeshletCount(o) <= cmds[o.cmdId].maxPayload
  {
    cmds[o.cmdId := cmds[o.cmdId].(maxPayload := cmds[o.cmdId].maxPayload - MeshletCount(o))]
  }

  /** The payload of a live object never exceeds its command's, so free's
      unsigned subtraction does not wrap, and the object's clusters lie in
      the table. */
  lemma ReleaseBounds(objs: seq<Object>, bks: seq<Bucket>, cmds: seq<DrawCmd>, cl: seq<Cluster>, id: nat)
    requires TablesOk(objs, bks, cmds, cl) && id < |objs| && !IsEmpty(objs[id])
    ensures objs[id].cmdId < |cmds| && MeshletCount(objs[id]) <= cmds[objs[id].cmdId].maxPayload
    ensures objs[id].clusterId + NumClusters(objs[id]) <= |cl|
  {
    var o := objs[id];
    assert ObjectOk(o, |cmds|, |bks|, cl);
    RangePayload(o, |cmds|, |bks|, cl, o.cmdId);
    PayloadSlice(cl, o.clusterId, o.clusterId + NumClusters(o), o.cmdId);
  }

  /** Resetting a live object's clusters takes exactly its meshlets off
      its command. */
  lemma ReleasePayload(cmds: seq<DrawCmd>, nb: nat, cl: seq<Cluster>, o: Object)
    requires PayloadInv(cl, cmds) && ObjectOk(o, |cmds|, nb, cl) && !IsEmpty(o)
    requires MeshletCount(o) <= cmds[o.cmdId].maxPayload
    ensures PayloadInv(Tombstoned(cl, o.clusterId, NumClusters(o)), Debited(cmds, o))
  {
    var cl' := Tombstoned(cl, o.clusterId, NumClusters(o));
    forall c: nat ensures Payload(cl', c) + Payload(cl[o.clusterId..o.clusterId + NumClusters(o)], c) == Payload(cl, c) {
      PayloadTombstoned(cl, o.clusterId, NumClusters(o), c);
    }
    PayloadInvRelease(cmds, nb, cl, cl', o);
  }

  /** free's table updates keep the four tables consistent. */
  lemma ReleaseStep(objs: seq<Object>, bks: seq<Bucket>, cmds: seq<DrawCmd>, cl: seq<Cluster>, id: nat)
    requires TablesOk(objs, bks, cmds, cl) && id < |objs| && !IsEmpty(objs[id])
    requires objs[id].cmdId < |cmds| && MeshletCount(objs[id]) <= cmds[objs[id].cmdId].maxPayload
    ensures TablesOk(objs[id := EmptyObject], bks, Debited(cmds, objs[id]),
                     Tombstoned(cl, objs[id].clusterId, NumClusters(objs[id])))
  {
    var o := objs[id];
    var cl' := Tombstoned(cl, o.clusterId, NumClusters(o));
    ReleasePayload(cmds, |bks|, cl, o);
    CommandsInvPayload(cmds, o.cmdId, cmds[o.cmdId].maxPayload - MeshletCount(o));
    ObjectsInvRelease(objs, id, |cmds|, |bks|, cl, cl');
  }

  /** free's pop_back loop keeps the tables consistent and in sync. */
  lemma TrimStep(objs: seq<Object>, bks: seq<Bucket>, cmds: seq<DrawCmd>, cl: seq<Cluster>)
    requires TablesOk(objs, bks, cmds, cl)
    ensures TablesOk(TrimTail(objs), bks, cmds, cl)
    ensures Synced(objs, cl, -1) ==> Synced(TrimTail(objs), cl, -1)
  {
    var r := TrimTail(objs);
    ObjectsInvPrefix(objs, |r|, |cmds|, |bks|, cl);
    assert forall i :: 0 <= i < |r| ==> r[i] == objs[i];
  }

  /** free leaves every live instanced object's culling record in place. */
  lemma ReleaseSynced(objs: seq<Object>, bks: seq<Bucket>, cmds: seq<DrawCmd>, cl: seq<Cluster>, id: nat)
    requires TablesOk(objs, bks, cmds, cl) && Synced(objs, cl, -1) && id < |objs| && !IsEmpty(objs[id])
    ensures Synced(objs[id := EmptyObject], Tombstoned(cl, objs[id].clusterId, NumClusters(objs[id])), -1)
  {
    var cl' := Tombstoned(cl, objs[id].clusterId, NumClusters(objs[id]));
    var e := objs[id := EmptyObject];
    forall i | 0 <= i < |e| && !IsEmpty(e[i]) && e[i].objType != Landscape && e[i].clusterId < |cl'|
      ensures cl'[e[i].clusterId].pos == e[i].pos.translation
    {
      if i < id {
        assert Disjoint(objs[i], objs[id]);
      } else {
        assert Disjoint(objs[id], objs[i]);
      }
    }
  }

  /** After free, slot `id` is empty or gone and every other slot keeps
      its object; only trailing empty slots disappear. */
  lemma ReleaseOthers(objs: seq<Object>, id: nat, j: nat)
    requires id < |objs|
    ensures var objs' := TrimTail(objs[id := EmptyObject]);
      && (id < |objs'| ==> IsEmpty(objs'[id]))
      && (j != id && j < |objs'| ==> objs'[j] == objs[j])
      && (j != id ==> (j < |objs'| && !IsEmpty(objs'[j]) <==> j < |objs| && !IsEmpty(objs[j])))
  {
    var e := objs[id := EmptyObject];
    var objs' := TrimTail(e);
    if id < |objs'| {
      assert objs'[id] == e[id];
    }
    if j < |objs'| {
      assert objs'[j] == e[j];
    } else if j < |objs| {
      assert IsEmpty(e[j]);
    }
  }

  /** The next alloc after free(id) reuses slot `id` or a lower one. */
  lemma ReleaseReuse(objs: seq<Object>, id: nat)
    requires id < |objs|
    ensures FirstFree(TrimTail(objs[id := EmptyObject])) <= id
  {
    ReleaseOthers(objs, id, id);
  }

  /** The position write of setObjMatrix desynchronises at most object
      `id`'s culling record. */
  lemma MoveStep(objs: seq<Object>, bks: seq<Bucket>, cmds: seq<DrawCmd>, cl: seq<Cluster>, id: nat, m: Matrix)
    requires TablesOk(objs, bks, cmds, cl) && Synced(objs, cl, -1) && id < |objs| && !IsEmpty(objs[id])
    ensures TablesOk(objs[id := objs[id].(pos := m)], bks, cmds, cl)
    ensures Synced(objs[id := objs[id].(pos := m)], cl, id)
  {
    var objs' := objs[id := objs[id].(pos := m)];
    assert ObjectsInv(objs', |cmds|, |bks|, cl) by {
      forall i, j | 0 <= i < j < |objs'| && !IsEmpty(objs'[i]) && !IsEmpty(objs'[j])
        ensures Disjoint(objs'[i], objs'[j])
      {
        assert Disjoint(objs[i], objs[j]);
      }
      forall i | 0 <= i < |objs'| ensures ObjectOk(objs'[i], |cmds|, |bks|, cl) {
        assert ObjectOk(objs[i], |cmds|, |bks|, cl);
      }
    }
  }

  /** updateInstance moving object `id`'s culling record to the object's
      translation resynchronises the table. */
  lemma ResyncStep(objs: seq<Object>, bks: seq<Bucket>, cmds: seq<DrawCmd>, cl: seq<Cluster>, id: nat)
    requires TablesOk(objs, bks, cmds, cl) && Synced(objs, cl, id)
    requires id < |objs| && !IsEmpty(objs[id]) && objs[id].objType != Landscape
    ensures objs[id].clusterId < |cl|
    ensures var q := objs[id].clusterId;
      var cl' := cl[q := cl[q].(pos := objs[id].pos.translation)];
      TablesOk(objs, bks, cmds, cl') && Synced(objs, cl', -1)
  {
    var o := objs[id];
    assert ObjectOk(o, |cmds|, |bks|, cl);
    var q := o.clusterId;
    var x := cl[q].(pos := o.pos.translation);
    RetagStep(objs, bks, cmds, cl, q, x, id);
    forall i | 0 <= i < |objs| && !IsEmpty(objs[i]) && objs[i].objType != Landscape && objs[i].clusterId < |cl|
      ensures cl[q := x][objs[i].clusterId].pos == objs[i].pos.translation
    {
      if i < id {
        assert Disjoint(objs[i], objs[id]);
      } else if i > id {
        assert Disjoint(objs[id], objs[i]);
      }
    }
  }
}
