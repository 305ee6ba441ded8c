# OpenGothic draw storage, ray-tracing scene and asset loader in Dafny

This project models three parts of the OpenGothic renderer and its asset
loader, and proves properties of them.

- **DrawStorage** (`game/graphics/drawstorage.cpp`, `drawstorage.h`) keeps the
  meshlet-cluster renderer's tables:
  - objects, one slot per allocated item;
  - buckets, one per (mesh, material) pair;
  - draw commands, one per (colour pipeline, depth pipeline) pair;
  - GPU clusters.

  `alloc` fills the first free object slot and registers the bucket, the
  command and the clusters. `free` releases them and trims empty slots off
  the end. `updateInstance` re-synchronises a cluster with its object's
  transform. `commit` lays the commands' payloads out one after another,
  builds the indirect-argument table and orders the commands by alpha
  function. `drawGBuffer` and `drawShadow` issue one indirect draw per command
  that has a descriptor for the view. `Item` is the move-only handle whose
  destructor frees its object.
- **RtScene** (`game/graphics/rtscene.cpp`) collects the instances of the
  ray-tracing top-level acceleration structure:
  - solid landscape geometry goes into one static BLAS;
  - every other supported instance gets a row in the texture/vertex/index
    tables, and consecutive instances with the same row share it;
  - `buildTlas` appends the static BLAS as one more instance and publishes the
    tables.
- **Resources** (`Game/resources.cpp`) loads textures, meshes and skeletons by
  name through three caches. Along the way it:
  - renames `.MDS` skeletons to `.MDH`;
  - maps source mesh extensions to compiled ones (`.3DS`→`.MRM`,
    `.MMS`→`.MMB`, `.ASC`→`.MDL`) and classifies meshes by extension;
  - falls back from a missing `.TGA` to its compiled `-C.TEX` file;
  - probes `.MDL`, `.MDM` and `.MDH` files in a fixed order in `loadMDS`.

How the source is modelled:
- Objects that the source updates in place are classes with `seq`/`map` fields:
  `Storage.DrawStorage`, `Storage.Item`, `RayScene.RtScene` and
  `Resources.ResourceCache`. Their methods carry `modifies` clauses.
- Each method is proved against specification functions and predicates on
  the tables:
  - `Plan` for the draw passes;
  - `Tombstoned`, `Debited` and `TrimTail` for `free`;
  - `Admit` and `Rows` for the ray-tracing rows;
  - `TextureLoad`, `MeshCacheLoad` and `SkeletonLoad` for the caches.
- The pure parts are functions. This covers pipeline selection, the name
  rewriting and the `loadMDS` probe order.
- The table invariant kept by every operation of the draw storage is in
  `DrawInvariants.TablesOk`. It says:
  - every live object's cluster range lies in the cluster table;
  - every cluster names a live command;
  - each command's `maxPayload` is the sum of its clusters' meshlets;
  - commands are unique per pipeline pair.

  `Synced` ties each non-landscape cluster to the object's position.
- Ownership by handles is tracked in a ghost registry, `DrawStorage.handles`,
  from each live slot to the handle that owns it. `Owned` says that the
  registered slots are exactly the live objects, and that each registered
  handle points back at its slot. `Item.Attached` says that a handle is the
  one its storage registers for its slot. `alloc` registers the handle it
  returns. The moves re-register the slot they move, and the destructor
  (through `free`) unregisters it. So every live object has exactly one owning
  handle (`OneOwner`), and a handle that has been moved from or destroyed
  frees nothing.

Files:
- `types.dfy`: shared values.
- `pipelines.dfy`: `pipelineColor` and `pipelineDepth`.
- `drawtables.dfy`: the table records and payload sums.
- `drawinv.dfy`: the table invariants and step lemmas.
- `lookups.dfy`: `bucketId`, `commandId` and `clusterId`.
- `ordering.dfy`: the alpha order of `commit`.
- `drawplan.dfy`: the draw passes.
- `drawstorage.dfy`: the `DrawStorage` and `Item` classes.
- `rtscene.dfy`: the ray-tracing scene.
- `assetnames.dfy`: name rewriting.
- `resources.dfy`: file lookup, mesh loading and the caches.

## Model

| member | source | states |
|---|---|---|
| `Storage.DrawStorage.constructor` | game/graphics/drawstorage.cpp:80-81 | a new storage has empty tables, is uncommitted, satisfies the table invariant and has no registered handles |
| `Storage.DrawStorage.ImplAlloc` | game/graphics/drawstorage.cpp:426-437 | clears the committed flag and returns the first empty slot; when there is none it appends one empty object and returns its index |
| `Storage.DrawStorage.AllocPacked` | game/graphics/drawstorage.cpp:86-107 | the packed-cluster alloc: the slot from implAlloc becomes a Landscape object with the given index range, bucket, command and one cluster per meshlet; the handle is empty exactly when the command id is the null id; a non-empty handle becomes the registered owner of the slot; the invariant and the registry are kept |
| `Storage.DrawStorage.StorePacked` | game/graphics/drawstorage.cpp:95-102 | the field assignments of the packed alloc: the object and the new tables are those of `Lookups.PackedAllocated` and the invariant holds again |
| `Storage.DrawStorage.AllocBucket` | game/graphics/drawstorage.cpp:109-133 | the bucket alloc: the object takes the caller's type and one cluster with the radius `radius`, a parameter standing for the bucket mesh's conservative bounding radius; a non-empty object gets the instance slot, also written into its cluster; the handle is empty exactly for an empty object, and otherwise becomes the registered owner of the slot |
| `Storage.DrawStorage.StoreBucket` | game/graphics/drawstorage.cpp:118-130 | the field assignments of the bucket alloc, as stated by `Lookups.BucketAllocated`, keeping the invariant |
| `Storage.DrawStorage.AllocAnim` | game/graphics/drawstorage.cpp:135-138 | the animated-mesh alloc returns an empty handle |
| `Storage.DrawStorage.Free` | game/graphics/drawstorage.cpp:140-160 | the command loses exactly the object's meshlet count, and this never drops below zero; the object's clusters (all of its meshlets for Landscape, one otherwise) become reset clusters; the slot is emptied and trailing empty slots are removed; the slot leaves the handle registry; the invariant is kept |
| `Storage.DrawStorage.UpdateInstance` | game/graphics/drawstorage.cpp:162-175 | changes nothing for a Landscape object; otherwise logs one write of an instance descriptor holding the object's transform into its instance slot, sets the object's cluster position to the transform's translation and clears the committed flag |
| `Storage.DrawStorage.Commit` | game/graphics/drawstorage.cpp:177-231 | returns at once when already committed or when there are no commands; otherwise commands change only in `firstPayload`, and the GPU receives a wait-idle and the cluster, payload and indirect buffers |
| `Storage.DrawStorage.Upload` | game/graphics/drawstorage.cpp:185-230 | the body of commit after its early returns: payload offsets, indirect table and order are published as `Storage.Publish` says |
| `Storage.DrawStorage.DrawGBuffer` | game/graphics/drawstorage.cpp:330-347 | the calls are `Plan(ord, cmd, VMain)`: one per command in alpha order that has a main-view descriptor, each using a G-buffer pipeline |
| `Storage.DrawStorage.DrawShadow` | game/graphics/drawstorage.cpp:349-366 | the calls for shadow layer 0 or 1 are the plan of that view, each using a depth pipeline |
| `Storage.DrawPass` | game/graphics/drawstorage.cpp:336-346 | the loop over `ord` skips commands whose descriptor for the view is empty and draws the rest in order; the result equals `DrawPlan.Plan` |
| `Storage.PackedTables` | game/graphics/drawstorage.cpp:97-102 | bucketId, commandId and clusterId in sequence; the new tables keep the invariant and satisfy `PackedAllocated` |
| `Storage.BucketTables` | game/graphics/drawstorage.cpp:120-130 | the same sequence for the bucket alloc, with the instance slot written into the cluster when the object is not empty |
| `Storage.ResetClusters` | game/graphics/drawstorage.cpp:148-152 | the loop resets exactly clusters `r..r+n-1` |
| `Storage.PopEmpty` | game/graphics/drawstorage.cpp:155-159 | the loop pops empty objects off the back until the last one is live |
| `Storage.ReleaseTables` | game/graphics/drawstorage.cpp:141-159 | the table updates of free, stated through `Debited`, `Tombstoned` and `TrimTail`, keep the invariant |
| `Storage.StampPayload` | game/graphics/drawstorage.cpp:185-189 | each command's `firstPayload` is the sum of the payloads before it, cut to 32 bits; `totalPayload` is the sum of all of them |
| `Storage.IndirectTable` | game/graphics/drawstorage.cpp:191-195 | one indirect command per draw command, with vertex count 64 and write offset `firstPayload` |
| `Storage.Publish` | game/graphics/drawstorage.cpp:185-202 | payload layout, indirect table and alpha-sorted permutation together; only `firstPayload` changes and the published state holds |
| `Storage.Item.TakeFrom` | game/graphics/drawstorage.h:41-44 | one step of a move: an empty handle takes over another's object, leaving it empty; the registry names the new handle, which is attached, and a third attached handle stays attached |
| `Storage.RegisteredIffLive` | game/graphics/drawstorage.h:50-53 | a slot is registered to a handle exactly when its object is live |
| `Storage.RegisteredAttached` | game/graphics/drawstorage.h:41-53 | the handle registered for a live slot owns that slot and is attached |
| `Storage.OneOwner` | game/graphics/drawstorage.h:41-53 | two attached handles that own the same slot of the same storage are the same handle, so each object is freed once |
| `Storage.DrawStorage.FreeTables` | game/graphics/drawstorage.cpp:140-160 | the table updates of free: the debited command, the reset clusters and the emptied, trimmed object table, with the invariant kept |
| `Storage.Item.constructor` | game/graphics/drawstorage.h:38 | a default handle owns nothing |
| `Storage.Item.Handle` | game/graphics/drawstorage.h:39-40 | the handle alloc returns owns the object for a live slot and is empty otherwise |
| `Storage.Item.Move` | game/graphics/drawstorage.h:41-44 | the move constructor takes over the owner and id and leaves the source empty; the registry names the new handle for the slot, and both handles are attached; only the registry field of the storage changes |
| `Storage.Item.MoveAssign` | game/graphics/drawstorage.h:45-49 | move assignment swaps owner and id between the two handles, and both stay attached; each storage's registry is its old map updated only at the swapped slots, so every other registered handle stays attached; only the registry fields change |
| `Storage.Item.Destroy` | game/graphics/drawstorage.h:50-53 | an owning handle frees its object: the command is debited by its meshlet count, its clusters are reset, the slot is emptied and trimmed, it leaves the registry, the handle is no longer attached and the storage is uncommitted; buckets, `ord`, the indirect table, the payload total and the GPU log do not change; an empty handle does nothing |
| `Storage.Item.SetObjMatrix` | game/graphics/drawstorage.cpp:15-20 | an owning handle stores the transform in its object and runs updateInstance: a Landscape object leaves the clusters and the committed flag alone, any other object logs one write of the new transform into its instance slot, moves only its own cluster to the new translation and leaves the storage uncommitted; no other object and no other table changes, and a Landscape object logs nothing |
| `Storage.Item.MaterialOf` | game/graphics/drawstorage.cpp:39-44 | the material of the object's bucket, or the default material for an empty handle |
| `Storage.Item.Position` | game/graphics/drawstorage.cpp:52-56 | the object's transform, or identity for an empty handle |
| `Storage.Item.Mesh` | game/graphics/drawstorage.cpp:58-63 | the bucket's static mesh; none for an animated-mesh bucket or an empty handle |
| `Storage.Item.MeshSlice` | game/graphics/drawstorage.cpp:65-70 | the object's `(iboOff, iboLen)`, or `(0, 0)` for an empty handle |
| `Pipelines.PipelineColor` | game/graphics/drawstorage.cpp:368-406 | a colour pipeline exists exactly for Solid or AlphaTest on Landscape or Static; it is a landscape pipeline exactly for Landscape and an alpha-test pipeline exactly for AlphaTest |
| `Pipelines.PipelineDepth` | game/graphics/drawstorage.cpp:408-424 | a depth pipeline exists exactly for Solid (ClusterDepth) and AlphaTest (ClusterDepthAt), whatever the type |
| `Pipelines.ColorImpliesDepth` | game/graphics/drawstorage.cpp:468-471 | a colour pipeline implies a depth pipeline, so commandId returns the null id exactly for non-opaque materials |
| `Pipelines.PairDeterminesAlpha` | game/graphics/drawstorage.cpp:475-491 | two materials that share a command (the same pipeline pair) have the same alpha function, so a command's `alpha` is that of all its objects |
| `Types.Rank` | game/graphics/drawstorage.cpp:200-202 | the sort key of commit: Solid sorts first (rank 0) and AlphaTest second (rank 1) |
| `DrawTables.DefaultObjectIsEmpty` | game/graphics/drawstorage.h:139-152 | a default Object is empty, and emptiness depends on the command id alone |
| `DrawTables.IndirectSize` | game/graphics/drawstorage.h:183-189 | an IndirectCmd is five 32-bit words, 20 bytes, the stride of drawIndirect |
| `DrawTables.DefaultIndirectIsZero` | game/graphics/drawstorage.h:183-189 | every field of a default IndirectCmd is zero |
| `DrawInvariants.CommandCountBound` | game/graphics/drawstorage.cpp:467-501 | commands are unique per pipeline pair, so there are never more than six of them |
| `DrawInvariants.FirstFreeUnique` | game/graphics/drawstorage.cpp:429-433 | the slot implAlloc picks is the first empty one, or the end when no slot is empty |
| `DrawInvariants.TrimTail` | game/graphics/drawstorage.cpp:155-159 | the trimmed table is a prefix of the old one, ends in a live object or is empty, and only empty objects were removed |
| `DrawInvariants.Tombstoned` | game/graphics/drawstorage.cpp:148-152 | exactly the given range of clusters is reset, and the rest is unchanged |
| `DrawInvariants.ReleaseReuse` | game/graphics/drawstorage.cpp:154-159 | after free, the next alloc reuses a slot no later than the one just freed |
| `DrawInvariants.ReleaseOthers` | game/graphics/drawstorage.cpp:154-159 | free leaves every other object and its liveness unchanged |
| `Lookups.BucketId` | game/graphics/drawstorage.cpp:439-451 | returns the first bucket with that mesh and material; when there is none it appends one and returns the new index |
| `Lookups.BucketIdStable` | game/graphics/drawstorage.cpp:440-444 | a second lookup of the same mesh and material finds the same bucket and adds nothing |
| `Lookups.CommandId` | game/graphics/drawstorage.cpp:467-501 | the null id when neither pipeline exists; otherwise the first command with the same pipeline pair, or a new command appended with its descriptors for the main and both shadow views |
| `Lookups.CommandIdStable` | game/graphics/drawstorage.cpp:475-481 | a second lookup with the same material and type finds the same command and issues no descriptor calls |
| `Lookups.PackedClusters` | game/graphics/drawstorage.cpp:510-521 | cluster `i` copies the packed cluster's position and radius, with first meshlet `first + i`, one meshlet and no instance |
| `Lookups.ClusterIdPacked` | game/graphics/drawstorage.cpp:503-526 | the null id for the null command; otherwise appends the clusters at the old end of the table and adds the meshlet count to the command's payload |
| `Lookups.ClusterIdBucket` | game/graphics/drawstorage.cpp:528-545 | the null id for the null command; otherwise appends one cluster covering all the meshlets and adds them to the payload |
| `CommandOrder.AlphaOrder` | game/graphics/drawstorage.cpp:197-202 | the order is a permutation of the command indices sorted by alpha function |
| `CommandOrder.SolidFirst` | game/graphics/drawstorage.cpp:200-202 | in the sorted order every Solid command comes before every command that is not Solid |
| `DrawPlan.BindingIffPso` | game/graphics/drawstorage.cpp:492-498 | a command has a descriptor for a view exactly when it has that view's pipeline |
| `DrawPlan.PlanCovers` | game/graphics/drawstorage.cpp:336-339 | a pass draws each command with a pipeline for the view exactly once and none without one, in alpha order |
| `DrawPlan.VisibleDistinctSorted` | game/graphics/drawstorage.cpp:336-339 | skipping commands keeps a distinct, sorted order distinct and sorted |
| `DrawPlan.ShadowDrawsAll` | game/graphics/drawstorage.cpp:495-498 | every command has a depth pipeline, so the shadow passes skip none |
| `DrawPlan.GBufferPlan` | game/graphics/drawstorage.cpp:344 | every G-buffer call uses one of the four G-buffer pipelines |
| `DrawPlan.ShadowPlan` | game/graphics/drawstorage.cpp:363 | every shadow call uses a depth pipeline |
| `RayScene.RtScene.constructor` | game/graphics/rtscene.cpp:9-10 | a new scene has empty build lists and published tables |
| `RayScene.RtScene.NotifyTlas` | game/graphics/rtscene.cpp:12-18 | sets the update flag exactly for Solid or AlphaTest materials on Landscape or Static; otherwise the flag is unchanged |
| `RayScene.RtScene.IsUpdateRequired` | game/graphics/rtscene.cpp:20-22 | returns the update flag |
| `RayScene.RtScene.AddInstance` | game/graphics/rtscene.cpp:24-54 | unsupported instances change nothing; solid landscape goes into the static-opaque list only; anything else appends its row unless it repeats the last one, then appends an instance that points at the last row and is non-opaque exactly for AlphaTest |
| `RayScene.RtScene.AddMeshInstance` | game/graphics/rtscene.cpp:37-53 | the row is admitted, and the instance's id is the index of the last row, cut to 32 bits |
| `RayScene.RtScene.AdmitRow` | game/graphics/rtscene.cpp:39-45 | the four row tables grow together by the row exactly when they were empty or their last row differs |
| `RayScene.RtScene.PushRow` | game/graphics/rtscene.cpp:41-44 | appends one row to each of the four tables |
| `RayScene.RtScene.AddBlasInstance` | game/graphics/rtscene.cpp:56-66 | appends the fallback-black row with no buffers and offset 0, and an opaque identity instance |
| `RayScene.RtScene.BuildTlas` | game/graphics/rtscene.cpp:68-83 | clears the update flag; the static BLAS holds the old static-opaque list; the published rows are the built rows plus the fallback row; the TLAS is the built instances plus the static BLAS instance; the build lists are empty |
| `RayScene.RtScene.PublishBuild` | game/graphics/rtscene.cpp:76-80 | the published tables are the build tables |
| `RayScene.RtScene.ResetBuild` | game/graphics/rtscene.cpp:82 | `build = Build()` empties every build list |
| `RayScene.FirstPrimitive` | game/graphics/rtscene.cpp:37 | `uint32_t(firstIndex/3)`: below 2^32, and the triangle containing `firstIndex` when there is no truncation |
| `RayScene.Admit` | game/graphics/rtscene.cpp:39-45 | the row list grows by one exactly when it is empty or its last row differs from the key; the old rows are kept and the key is last |
| `RayScene.AdmitRepeat` | game/graphics/rtscene.cpp:39-45 | admitting the same row twice in a row adds it once |
| `AssetNames.RFind` | Game/resources.cpp:188 | `rfind`: the last position where the pattern occurs, or none exactly when it does not occur |
| `AssetNames.SuffixTest` | Game/resources.cpp:115-116 | `rfind(x) == size() - len` with the subtraction in 64-bit unsigned arithmetic |
| `AssetNames.SuffixTestIff` | Game/resources.cpp:115-116 | the suffix test holds exactly when the name ends with the suffix or is one character shorter than it |
| `AssetNames.SuffixTestWraps` | Game/resources.cpp:115-116 | `"abc"` passes the `.MDS` test without ending in `.MDS` |
| `AssetNames.SkeletonNameAsWritten` | Game/resources.cpp:115-117 | the skeleton rename with the source's suffix test, for every name; keeps the length, and leaves names shorter than three characters alone |
| `AssetNames.SkeletonRenameWraps` | Game/resources.cpp:115-117 | as written, the rename turns `"abc"` into `"MDH"` |
| `AssetNames.Replace3` | Game/resources.cpp:117 | overwriting the last three characters keeps the length and the stem and ends in the new extension |
| `AssetNames.SkeletonName` | Game/resources.cpp:115-117 | a `.MDS` or `.mds` name becomes the `.MDH` name with the same stem; any other name is kept |
| `AssetNames.SkeletonNameIdempotent` | Game/resources.cpp:115-117 | renaming a renamed name changes nothing |
| `AssetNames.CompiledName` | Game/resources.cpp:188-197 | a name containing `-C` is kept; otherwise only the extension may change and the length is kept |
| `AssetNames.CompiledNameCases` | Game/resources.cpp:188-197 | `.3DS`, `.MMS` and `.ASC` names without `-C` end in `.MRM`, `.MMB` and `.MDL`; all other names are kept |
| `AssetNames.CompiledNameIdempotent` | Game/resources.cpp:188-197 | a compiled name is its own compiled name |
| `AssetNames.FallbackName` | Game/resources.cpp:170-173 | a `.TGA` name with the extension replaced by `-C.TEX`: the same stem, two characters longer |
| `Resources.FileData` | Game/resources.cpp:164-181 | the archive's bytes when there are any; otherwise, for a `.TGA` name, the converted bytes of the `-C.TEX` file; otherwise nothing |
| `Resources.LoadMds` | Game/resources.cpp:227-254 | an `.MDMS` name loses its last character and is read as is; the by-reference name keeps its length or loses that one character |
| `Resources.LoadMdsProbeOrder` | Game/resources.cpp:232-253 | for other names the library comes from the first of name, `.MDL`, `.MDM`, `.MDH` that exists, and is empty when none exists; an `.MDH` overlay appears only on the `.MDM` library and names the `.MDH` file |
| `Resources.LoadMesh` | Game/resources.cpp:183-225 | a static result was packed from the compiled `.MRM` name; an error leaves nothing loaded; a library is loaded only for a dynamic result |
| `Resources.MeshKindBySuffix` | Game/resources.cpp:199-224 | by compiled suffix: `.MRM` is static and `.MMB` dynamic unless the parser finds no sub-mesh; the five model suffixes are dynamic; anything else is an error |
| `Resources.MeshKindBySource` | Game/resources.cpp:188-224 | by source suffix without `-C`: `.3DS` is static and `.MMS` dynamic unless empty, and `.ASC` is always dynamic |
| `Resources.TextureLoad` | Game/resources.cpp:59-84 | an empty name gives null; a cached name gives the cached texture; for an uncached name, the cache changes exactly when its data is non-empty and decodes, the decoded texture is then cached and returned, and otherwise the fallback is returned uncached; the cache only grows, under this name |
| `Resources.MeshCacheLoad` | Game/resources.cpp:86-109 | an empty name gives null; otherwise the name is cached whatever the outcome, with the ProtoMesh built from the packed mesh for a static mesh and from the library otherwise, and the result is null exactly when loadMesh reports an error |
| `Resources.SkeletonLoad` | Game/resources.cpp:111-136 | keyed by the renamed name: a cache hit returns the entry; otherwise the skeleton of the library of the renamed file is cached under that name, and the result is null exactly when the renamed file does not exist |
| `Resources.MeshCachedOnFailure` | Game/resources.cpp:98-102 | a failed mesh is cached, so the next load returns the cached entry instead of null |
| `Resources.SkeletonCachedOnFailure` | Game/resources.cpp:124-129 | likewise a skeleton whose file is missing |
| `Resources.SkeletonSharesEntry` | Game/resources.cpp:115-121 | a `.MDS` name and its `.MDH` name load the same cache entry |
| `Resources.TextureNotCachedWithoutData` | Game/resources.cpp:67-69 | a texture without data is never cached and always yields the fallback |
| `Resources.LoadTwice` | Game/resources.cpp:59-136 | loading a name again after a load that cached it returns the cached entry and leaves every cache unchanged |
| `Resources.ResourceCache.constructor` | Game/resources.cpp:27-45 | the three caches start empty |
| `Resources.ResourceCache.ImplLoadTexture` | Game/resources.cpp:59-84 | the result and new texture cache are those of `TextureLoad` on the old cache |
| `Resources.ResourceCache.ImplLoadMesh` | Game/resources.cpp:86-109 | the result and new mesh cache are those of `MeshCacheLoad` |
| `Resources.ResourceCache.ImplLoadSkeleton` | Game/resources.cpp:111-136 | the result and new skeleton cache are those of `SkeletonLoad` |

## Findings

| source | as written | input that shows it | evidently intended | confidence | as-written member | corrected member |
|---|---|---|---|---|---|---|
| Game/resources.cpp:115-117 | `name.rfind(".MDS")==name.size()-4` takes `size()-4` in unsigned arithmetic; for a three-character name it wraps to `npos`, which is also what `rfind` returns when nothing is found | `"abc"`: the test passes and the rename overwrites the whole name, giving `"MDH"` | rename only names that end in `.MDS` or `.mds` | not executed | `AssetNames.SkeletonRenameWraps` | `AssetNames.SkeletonName` |

`AssetNames.SuffixTest`, `AssetNames.SuffixTestWraps` and
`AssetNames.SkeletonNameAsWritten` model the test as written.
`AssetNames.SuffixTestIff` proves that it differs from `EndsWith` only for
names one character shorter than the suffix. The rest of the model reads
every suffix test of `Game/resources.cpp` as `EndsWith`. The same wrap occurs
at lines 170, 191-195, 199, 207, 215-219 and 228.

## Left out

- Vulkan work is not modelled as such. This covers `waitIdle`, buffer and
  descriptor creation, `setUniforms` and `drawIndirect`. The storage records
  them in a ghost log of calls, and the draw passes return the list of calls.
  The ray-tracing scene stores the lists that `device.blas`, `device.ssbo` and
  `device.tlas` are built from, not the GPU objects.
- `prepareUniforms`, `invalidateUbo`, `visibilityPass` and the no-op or
  asserting setters of `Item` (`setAsGhost`, `setFatness`, `setWind`,
  `startMMAnim`, `setPfxData`) are left out. They are outside the modelled
  core. `bounds()` returns a dummy value.
- Storage.DrawStorage.Commit: promises only a permutation sorted by alpha
  function, because `std::sort` is not stable and that is all any sort
  guarantees. The body builds the order with a stable counting pass.
- `drawstorage.h` declares `commit(Encoder&, fId)` returning `bool`, with
  fields `pMain`/`pShadow` and `cmdDurtyBit`. The model follows
  `drawstorage.cpp`: `void commit()`, `psoColor`/`psoDepth` and `commited`.
- `material.h`, `sceneglobals.h`, `rtscene.h` and `Resources::fallbackBlack`
  are not part of this model. The following are therefore assumptions:
  - the `Material::AlphaFunc` order used by the sort: the enumerators in the
    order of `pipelineColor`'s switch, Solid first and AlphaTest second;
  - the three views `V_Shadow0`, `V_Shadow1`, `V_Main`;
  - the `Category` values, taken to be the draw-storage types;
  - a fresh scene's `needToUpdate` being false;
  - a default `RtInstance` having id 0 and being opaque;
  - `DrawClusters::Cluster()` having position (0, 0, 0) and zero bucket,
    command, first meshlet and instance fields. This gives the reset cluster
    `DrawTables.Tombstone` its fields other than `r` and `meshletCount`, and
    gives the bucket cluster of `clusterId` its position;
  - `dummy<Matrix4x4>()` being the identity matrix, which is also the position
    of an empty `Object` (`DrawTables.EmptyObject`);
  - `dummy<Material>()` being `Types.DefaultMaterial`, Solid without a
    texture.
- Storage.DrawStorage.AllocPacked: requires `iboOff` and `iboLen` below 2^32,
  because the source stores them as `uint32_t`. It also requires the packed
  cluster array to hold `iboLen/64` entries for an opaque material, because
  the source reads it without a bound.
- Storage.DrawStorage.AllocBucket: requires `iboLen/64 <= 1` for a Landscape
  object. For a longer one, `free` resets `iboLen/64` clusters where `alloc`
  created one, which overwrites its neighbours' clusters; that case keeps no
  invariant.
- Storage.DrawStorage.AllocBucket: takes the instance slot of
  `owner.alloc(sizeof(InstanceDesc))` as a parameter. `VisualObjects` is not
  part of this model.
- Storage.DrawStorage.AllocBucket: takes the cluster radius as the parameter
  `radius`. The source reads it from the mesh,
  `bucket.staticMesh->bbox.rConservative` (drawstorage.cpp:537), so two
  allocations of one bucket always get the same radius. Mesh bounding boxes
  are not part of this model, and the model accepts any radius.
- Storage.DrawStorage.UpdateInstance: the write of an `InstanceDesc` into the
  object's instance slot (drawstorage.cpp:167-169) is recorded only as an
  `InstanceWrite` entry in the ghost device log. The instance storage belongs
  to `VisualObjects`, which is not part of this model.
- Storage.DrawStorage.Free: `obj = Object()` (drawstorage.cpp:154) releases
  the object's instance slot back to `VisualObjects`. The model shows that
  only as the emptied object, whose `instance` is `None`.
- Bucket and command ids are unbounded, although the source stores them as
  `uint16_t`. Commands never exceed six, as
  `DrawInvariants.CommandCountBound` shows. The wrap after 65536 buckets is
  not modelled.
- Resources.LoadMesh: the parsers of ZenLoad and Tempest (`zCProgMeshProto`,
  `zCMorphMesh`, `zCModelMeshLib`, `Pixmap`, `convertZTEX2DDS`) are
  parameters of `Assets`. The model includes the sub-mesh count the code
  branches on, whether the bytes decode, and the conversion function. Exceptions
  they throw other than the modelled ones are not modelled.
- The suffix tests of `Game/resources.cpp` are read as `EndsWith`; the
  Findings table above gives the wrap they have as written. The members below
  therefore do not describe the source for names one character shorter than
  a suffix:
- AssetNames.CompiledName: a three-character name without `-C`, such as
  `"abc"`, passes the `.3DS` test at line 191 as written, and the source
  rewrites it to `"MRM"`; the model leaves it unchanged.
- AssetNames.CompiledNameCases: does not cover the three-character names that
  lines 191-195 rewrite to `"MRM"` as written.
- Resources.FileData: for a three-character name without data, such as
  `"abc"`, the `.TGA` test at line 170 passes as written. `n.resize(n.size()-4)`
  at line 172 then asks for a wrapped size and throws. The model returns no
  data and does not model the exception.
- Resources.TextureLoad: the exception that `getFileData` throws for such a
  name escapes `implLoadTexture`, because line 67 is outside its `try`; the
  model returns the fallback texture instead.
- Resources.LoadMds: a four-character name, such as `"abcd"`, passes the
  `.MDMS` test at line 228 as written and is truncated to three characters;
  the model tries the probe list for it.
- Resources.LoadMdsProbeOrder: its precondition admits four-character names,
  which the source truncates instead of probing.
- Resources.LoadMesh: a three-character name is rewritten to `"MRM"`. That
  name passes the `.MRM` test at line 199, so it is loaded as a static mesh
  unless it has no sub-meshes. A four-character name such as `"abcd"` passes
  the `.MDMS` test at line 215 and then the one at line 228. It is therefore
  `Dynamic`, with the library of `"abc"`. The model classifies both by
  `EndsWith`.
- Resources.MeshKindBySuffix: states the classification by `EndsWith`, so
  three- and four-character names are `Dynamic` or static in the source where
  the lemma says `MeshError`.
- Resources.MeshCacheLoad: inherits the short-name cases of `LoadMesh`.
- Resources.SkeletonLoad: keys the cache by `SkeletonName`. As written, the
  source keys a three-character name as `"MDH"`, as the Findings row shows.
- Resources.ResourceCache.ImplLoadTexture, Resources.ResourceCache.ImplLoadMesh
  and Resources.ResourceCache.ImplLoadSkeleton follow the three functions
  above, with the same short-name gaps.
- TextureNotCachedWithoutData: for a three-character name without data, such
  as `"abc"`, the source throws at line 172, and the exception escapes
  `implLoadTexture` because line 67 is outside its `try`. The lemma says the
  fallback texture is returned instead.
- MeshCachedOnFailure: its premise `LoadMesh(a, name).code == MeshError` holds
  in the model for `"abc"`. The source rewrites that name to `"MRM"` and loads
  it as a static mesh when the file has sub-meshes, so its result is not null.
- SkeletonCachedOnFailure: for a three-character name such as `"abc"`, the
  premise and the cache key are the file `"abc"`. As written, the source
  looks up and keys the file `"MDH"`.
- Lookups.ClusterIdPacked: the cluster id returned is the unbounded old
  cluster count, and `maxPayload` grows by the unbounded meshlet count. The
  source casts both to `uint32_t` (drawstorage.cpp:524-525). Past 2^32
  clusters the returned id therefore wraps and can collide with `NoCluster`
  (0xFFFFFFFF), and the payload invariant then holds only mod 2^32. For the
  same reason `DrawCmd.maxPayload` and `Object.clusterId` are `nat`, where
  the source's are `uint32_t` (drawstorage.h:206 and 152). So is
  `Cluster.meshletCount`, which the source assigns `uint32_t(meshletCount)`
  (drawstorage.cpp:541).
- Lookups.ClusterIdBucket: the same `uint32_t` casts of the returned id and
  of `maxPayload` (drawstorage.cpp:543-544) are not modelled.
- Storage.DrawStorage.DrawGBuffer: `ord` holds indices into the command table,
  where the source holds `DrawCmd*` pointers into `cmd` (drawstorage.h:256,
  drawstorage.cpp:197-199). An `alloc` after a `commit` can add a command with
  `cmd.push_back` (drawstorage.cpp:499), which can move the vector and leave
  those pointers dangling until the next `commit`. The model reads the
  command at the stored index instead.
- Storage.DrawStorage.DrawShadow: the same as `DrawGBuffer`, for `ord`'s
  pointers.
- Resources.LoadMesh: the `.MMB` branch returns `Dynamic` with only the packed
  mesh filled. `implLoadMesh` then builds its `ProtoMesh` from the empty
  library, as written.
- Pointers are modelled as values:
  - `StaticMesh*` and buffer pointers are ids;
  - the fallback-black texture is a distinct `TexRef` constructor, never equal
    to a material texture;
  - cached objects are values, not addresses.
- The VDF archive index, the font loading of the `Resources` constructor and
  the logging are left out. The archive is the `files` map.
- The fallback instance that `buildTlas` appends has id 0, the first row, and
  not the fallback row it pushes. This is the source's behaviour and the
  model keeps it.
