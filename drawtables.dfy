/** The records of the draw storage's four tables (objects, buckets, draw
    commands, clusters), their sentinels, and the per-command payload sum
    over the cluster table. */
module DrawTables {
  import opened Types
  import opened Pipelines

  /** PackedMesh::MaxInd: indices per meshlet. */
  const MaxInd: nat := 64

  /** uint16_t(-1): the command id of an empty object. */
  const NoCommand: nat := 0xFFFF

  /** uint32_t(-1): the cluster id returned for an invalid command, and the
      instance id of a cluster with no per-instance slot. */
  const NoCluster: nat := 0xFFFF_FFFF
  const NoInstance: nat := 0xFFFF_FFFF

  /** The viewports a draw command may hold a binding set for. */
  datatype View = VShadow0 | VShadow1 | VMain

  /** A bucket refers either to a static or to an animated mesh. */
  datatype MeshRef = StaticMesh(id: MeshId) | AnimMesh(id: MeshId)

  datatype Bucket = Bucket(mesh: MeshRef, mat: Material)

  /** DrawCmd: `bindings` is the set of views whose descriptor set is
      non-empty. */
  datatype DrawCmd = DrawCmd(
    psoColor: Option<Pipeline>,
    psoDepth: Option<Pipeline>,
    bucketId: nat,
    objType: ObjType,
    bindings: set<View>,
    alpha: AlphaFunc,
    firstPayload: nat,
    maxPayload: nat)

  /** One culling record. */
  datatype Cluster = Cluster(
    pos: Vec3,
    r: real,
    bucketId: nat,
    commandId: nat,
    firstMeshlet: nat,
    meshletCount: nat,
    instanceId: nat)

  /** A cluster slot reset by `free`: radius -1 and no meshlets.  The other
      fields take the defaults of DrawClusters::Cluster. */
  const Tombstone: Cluster := Cluster(Vec3(0.0, 0.0, 0.0), -1.0, 0, 0, 0, 0, 0)

  /** A precomputed meshlet bound supplied by a packed mesh. */
  datatype PackedCluster = PackedCluster(pos: Vec3, r: real)

  datatype Object = Object(
    pos: Matrix,
    instance: Option<nat>,
    objType: ObjType,
    iboOff: nat,
    iboLen: nat,
    bucketId: nat,
    cmdId: nat,
    clusterId: nat)

  /** Object(): every field at its default. */
  const EmptyObject: Object := Object(Identity, None, Landscape, 0, 0, 0, NoCommand, 0)

  /** Object::isEmpty: only the command id is consulted. */
  predicate IsEmpty(o: Object)
  {
    o.cmdId == NoCommand
  }

  lemma DefaultObjectIsEmpty(o: Object)
    ensures IsEmpty(EmptyObject)
    ensures IsEmpty(o) <==> IsEmpty(o.(pos := EmptyObject.pos, instance := None, objType := Landscape,
                                        iboOff := 0, iboLen := 0, bucketId := 0, clusterId := 0))
  {
  }

  /** IndirectCmd: five 32-bit words. */
  datatype IndirectCmd = IndirectCmd(
    vertexCount: nat,
    instanceCount: nat,
    firstVertex: nat,
    firstInstance: nat,
    writeOffset: nat)

  const DefaultIndirect: IndirectCmd := IndirectCmd(0, 0, 0, 0, 0)

  function Words(c: IndirectCmd): seq<nat>
  {
    [c.vertexCount, c.instanceCount, c.firstVertex, c.firstInstance, c.writeOffset]
  }

  /** sizeof(IndirectCmd): four bytes per word. */
  function IndirectSize(c: IndirectCmd): (n: nat)
    ensures n == 20
  {
    4 * |Words(c)|
  }

  /** The stride between the indirect-argument entries of two commands. */
  const IndirectStride: nat := 20

  lemma DefaultIndirectIsZero()
    ensures forall k :: 0 <= k < |Words(DefaultIndirect)| ==> Words(DefaultIndirect)[k] == 0
  {
  }

  /** Meshlets an object occupies. */
  function MeshletCount(o: Object): nat
  {
    o.iboLen / MaxInd
  }

  /** Cluster slots `free` resets for an object. */
  function NumClusters(o: Object): nat
  {
    if o.objType == Landscape then MeshletCount(o) else 1
  }

  /** What one cluster contributes to command `c`'s payload. */
  function Contrib(x: Cluster, c: nat): nat
  {
    if x.commandId == c then x.meshletCount else 0
  }

  /** The sum of `meshletCount` over the clusters owned by command `c`. */
  function Payload(s: seq<Cluster>, c: nat): nat
  {
    if s == [] then 0 else Payload(s[..|s| - 1], c) + Contrib(s[|s| - 1], c)
  }

  lemma {:induction false} PayloadAppend(s: seq<Cluster>, t: seq<Cluster>, c: nat)
    ensures Payload(s + t, c) == Payload(s, c) + Payload(t, c)
    decreases |t|
  {
    if t == [] {
      assert s + t == s;
    } else {
      assert (s + t)[..|s + t| - 1] == s + t[..|t| - 1];
      PayloadAppend(s, t[..|t| - 1], c);
    }
  }

  lemma PayloadSingle(x: Cluster, c: nat)
    ensures Payload([x], c) == Contrib(x, c)
  {
    assert [x][..0] == [];
  }

  /** Replacing one cluster changes the payload by the difference of the
      two contributions. */
  lemma PayloadUpdate(s: seq<Cluster>, i: nat, x: Cluster, c: nat)
    requires i < |s|
    ensures Payload(s[i := x], c) + Contrib(s[i], c) == Payload(s, c) + Contrib(x, c)
  {
    assert s == s[..i] + [s[i]] + s[i + 1..];
    assert s[i := x] == s[..i] + [x] + s[i + 1..];
    PayloadAppend(s[..i] + [s[i]], s[i + 1..], c);
    PayloadAppend(s[..i], [s[i]], c);
    PayloadAppend(s[..i] + [x], s[i + 1..], c);
    PayloadAppend(s[..i], [x], c);
    PayloadSingle(s[i], c);
    PayloadSingle(x, c);
  }

  /** A slice never holds more payload than the whole table. */
  lemma PayloadSlice(s: seq<Cluster>, a: nat, b: nat, c: nat)
    requires a <= b <= |s|
    ensures Payload(s[a..b], c) <= Payload(s, c)
  {
    assert s == s[..a] + s[a..b] + s[b..];
    PayloadAppend(s[..a] + s[a..b], s[b..], c);
    PayloadAppend(s[..a], s[a..b], c);
  }

  /** Extending a slice by one cluster adds that cluster's contribution. */
  lemma PayloadSliceStep(s: seq<Cluster>, a: nat, b: nat, c: nat)
    requires a <= b < |s|
    ensures Payload(s[a..b + 1], c) == Payload(s[a..b], c) + Contrib(s[b], c)
  {
    assert s[a..b + 1][..b - a] == s[a..b];
  }

  lemma {:induction false} PayloadForeign(s: seq<Cluster>, c: nat)
    requires forall k :: 0 <= k < |s| ==> s[k].commandId != c
    ensures Payload(s, c) == 0
  {
    if s != [] {
      PayloadForeign(s[..|s| - 1], c);
    }
  }

  lemma {:induction false} PayloadOnes(s: seq<Cluster>, c: nat)
    requires forall k :: 0 <= k < |s| ==> s[k].commandId == c && s[k].meshletCount == 1
    ensures Payload(s, c) == |s|
  {
    if s != [] {
      PayloadOnes(s[..|s| - 1], c);
    }
  }

  /** Sum of `maxPayload` over `cmds[..n]`. */
  function PayloadPrefix(cmds: seq<DrawCmd>, n: nat): nat
    requires n <= |cmds|
  {
    if n == 0 then 0 else PayloadPrefix(cmds, n - 1) + cmds[n - 1].maxPayload
  }

  /** The prefix sum depends only on the `maxPayload` fields. */
  lemma {:induction false} PayloadPrefixFrame(a: seq<DrawCmd>, b: seq<DrawCmd>, n: nat)
    requires n <= |a| && n <= |b|
    requires forall k :: 0 <= k < n ==> a[k].maxPayload == b[k].maxPayload
    ensures PayloadPrefix(a, n) == PayloadPrefix(b, n)
  {
    if n > 0 {
      PayloadPrefixFrame(a, b, n - 1);
    }
  }
}
