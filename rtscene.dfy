/** The ray-tracing scene (RtScene): the build lists that addInstance fills
    and the tables that buildTlas publishes from them. */
module RayScene {
  import opened Types

  /** Addresses of a mesh's vertex and index buffers. */
  type BufferId = nat

  /** The two buffers of a StaticMesh that a geometry row points at. */
  datatype StaticMesh = StaticMesh(vbo: BufferId, ibo: BufferId)

  /** A texture pointer in the tables: a material's diffuse texture, or
      Resources::fallbackBlack() for the row buildTlas adds. */
  datatype TexRef = MatTex(t: Option<TextureId>) | FallbackBlack

  /** The bottom-level structure an instance points at: one the caller
      passed in, or the scene's own blasStaticOpaque. */
  datatype BlasRef = MeshBlas(id: nat) | StaticOpaqueBlas

  /** An entry of build.staticOpaque: buffers, first index and index count. */
  datatype Geometry = Geometry(vbo: BufferId, ibo: BufferId, firstIndex: nat, iboLength: nat)

  /** Tempest::RtInstance: transform, custom index (the geometry row),
      bottom-level structure and whether it carries the NonOpaque flag. */
  datatype RtInstance = RtInstance(mat: Matrix, id: nat, blas: BlasRef, nonOpaque: bool)

  /** One geometry row: entry i of tex, vbo, ibo and iboOff together. */
  datatype RowKey = RowKey(tex: TexRef, vbo: Option<BufferId>, ibo: Option<BufferId>, firstPrimitive: nat)

  const U32: nat := 0x1_0000_0000

  /** The categories and alpha functions the ray-traced scene accepts. */
  predicate Supported(mat: Material, cat: ObjType)
  {
    (cat == Landscape || cat == Static) && (mat.alpha == Solid || mat.alpha == AlphaTest)
  }

  /** Solid landscape goes into the one static, opaque BLAS. */
  predicate StaticOpaque(mat: Material, cat: ObjType)
  {
    mat.alpha == Solid && cat == Landscape
  }

  /** `uint32_t(firstIndex/3)`: the triangle the geometry starts at,
      truncated to 32 bits. */
  function FirstPrimitive(firstIndex: nat): (p: nat)
    ensures p < U32
    ensures firstIndex < 3 * U32 ==> 3 * p <= firstIndex < 3 * p + 3
  {
    (firstIndex / 3) % U32
  }

  /** The four parallel row tables read as one list of rows. */
  function Rows(tex: seq<TexRef>, vbo: seq<Option<BufferId>>, ibo: seq<Option<BufferId>>, off: seq<nat>): (r: seq<RowKey>)
    requires |vbo| == |tex| && |ibo| == |tex| && |off| == |tex|
    ensures |r| == |tex|
  {
    seq(|tex|, i requires 0 <= i < |tex| => RowKey(tex[i], vbo[i], ibo[i], off[i]))
  }

  /** The tables after admitting geometry with key `key`: a row is added
      unless the last row already has that key. */
  function Admit(rows: seq<RowKey>, key: RowKey): (r: seq<RowKey>)
    ensures |r| == |rows| || |r| == |rows| + 1
    ensures |r| == |rows| + 1 <==> (rows == [] || rows[|rows| - 1] != key)
    ensures r[..|rows|] == rows
    ensures r != [] && r[|r| - 1] == key
  {
    if rows == [] || rows[|rows| - 1] != key then rows + [key] else rows
  }

  /** Admitting the same geometry twice in a row adds at most one row. */
  lemma AdmitRepeat(rows: seq<RowKey>, key: RowKey)
    ensures Admit(Admit(rows, key), key) == Admit(rows, key)
  {
  }

  lemma RowsSnoc(tex: seq<TexRef>, vbo: seq<Option<BufferId>>, ibo: seq<Option<BufferId>>, off: seq<nat>, k: RowKey)
    requires |vbo| == |tex| && |ibo| == |tex| && |off| == |tex|
    ensures Rows(tex + [k.tex], vbo + [k.vbo], ibo + [k.ibo], off + [k.firstPrimitive]) == Rows(tex, vbo, ibo, off) + [k]
  {
  }

  /** Rows in equal-length tables and instances whose custom index names
      one of them. */
  predicate TablesOk(tex: seq<TexRef>, vbo: seq<Option<BufferId>>, ibo: seq<Option<BufferId>>, off: seq<nat>,
                     inst: seq<RtInstance>)
  {
    && |vbo| == |tex| && |ibo| == |tex| && |off| == |tex|
    && (forall i :: 0 <= i < |inst| ==> inst[i].id < |tex|)
  }

  class RtScene {
    /** Set by notifyTlas, cleared by buildTlas. */
    var needToUpdate: bool

    /** RtScene::Build. */
    var staticOpaque: seq<Geometry>
    var buildTex: seq<TexRef>
    var buildVbo: seq<Option<BufferId>>
    var buildIbo: seq<Option<BufferId>>
    var buildIboOff: seq<nat>
    var buildInst: seq<RtInstance>

    /** What buildTlas published: the geometry blasStaticOpaque was built
        from, the row tables, the contents of the iboOffset buffer and the
        instances the TLAS was built from. */
    var blasStaticOpaque: seq<Geometry>
    var tex: seq<TexRef>
    var vbo: seq<Option<BufferId>>
    var ibo: seq<Option<BufferId>>
    var iboOffset: seq<nat>
    var tlas: seq<RtInstance>

    predicate Valid()
      reads this
    {
      && TablesOk(buildTex, buildVbo, buildIbo, buildIboOff, buildInst)
      && TablesOk(tex, vbo, ibo, iboOffset, tlas)
    }

    function BuildRows(): seq<RowKey>
      reads this
      requires Valid()
    {
      Rows(buildTex, buildVbo, buildIbo, buildIboOff)
    }

    function PublishedRows(): seq<RowKey>
      reads this
      requires Valid()
    {
      Rows(tex, vbo, ibo, iboOffset)
    }

    constructor ()
      ensures Valid() && !needToUpdate
      ensures staticOpaque == [] && buildTex == [] && buildInst == []
      ensures blasStaticOpaque == [] && tex == [] && tlas == []
    {
      needToUpdate := false;
      staticOpaque, buildTex, buildVbo, buildIbo, buildIboOff, buildInst := [], [], [], [], [], [];
      blasStaticOpaque, tex, vbo, ibo, iboOffset, tlas := [], [], [], [], [], [];
    }

    /** notifyTlas: a supported material and category requests a rebuild;
        nothing ever clears the request here. */
    method NotifyTlas(mat: Material, cat: ObjType)
      modifies this`needToUpdate
      ensures needToUpdate == (old(needToUpdate) || Supported(mat, cat))
    {
      if cat != Landscape && cat != Static {
        return;
      }
      if mat.alpha != Solid && mat.alpha != AlphaTest {
        return;
      }
      needToUpdate := true;
    }

    method IsUpdateRequired() returns (r: bool)
      ensures r == needToUpdate
    {
      r := needToUpdate;
    }

    /** addInstance for a mesh: unsupported geometry is dropped, solid
        landscape joins the static BLAS, anything else becomes an instance
        of the last row, a new one unless the last row has the same key. */
    method AddInstance(pos: Matrix, blas: BlasRef, mat: Material, mesh: StaticMesh, firstIndex: nat, iboLength: nat,
                       cat: ObjType)
      requires Valid()
      modifies this`staticOpaque, this`buildTex, this`buildVbo, this`buildIbo, this`buildIboOff, this`buildInst
      ensures Valid()
      ensures !Supported(mat, cat) ==>
        && staticOpaque == old(staticOpaque) && BuildRows() == old(BuildRows()) && buildInst == old(buildInst)
      ensures Supported(mat, cat) && StaticOpaque(mat, cat) ==>
        && staticOpaque == old(staticOpaque) + [Geometry(mesh.vbo, mesh.ibo, firstIndex, iboLength)]
        && BuildRows() == old(BuildRows()) && buildInst == old(buildInst)
      ensures Supported(mat, cat) && !StaticOpaque(mat, cat) ==>
        var key := RowKey(MatTex(mat.tex), Some(mesh.vbo), Some(mesh.ibo), FirstPrimitive(firstIndex));
        && staticOpaque == old(staticOpaque)
        && BuildRows() == Admit(old(BuildRows()), key)
        && buildInst == old(buildInst) + [RtInstance(pos, (|buildTex| - 1) % U32, blas, mat.alpha != Solid)]
        && (|buildTex| <= U32 ==> buildInst[|buildInst| - 1].id == |buildTex| - 1)
    {
      if cat != Landscape && cat != Static {
        return;
      }
      if mat.alpha != Solid && mat.alpha != AlphaTest {
        return;
      }
      if mat.alpha == Solid && cat == Landscape {
        staticOpaque := staticOpaque + [Geometry(mesh.vbo, mesh.ibo, firstIndex, iboLength)];
        return;
      }
      AddMeshInstance(pos, blas, mat, mesh, firstIndex);
    }

    /** The instance half of addInstance, for supported geometry other
        than solid landscape. */
    method AddMeshInstance(pos: Matrix, blas: BlasRef, mat: Material, mesh: StaticMesh, firstIndex: nat)
      requires Valid()
      modifies this`buildTex, this`buildVbo, this`buildIbo, this`buildIboOff, this`buildInst
      ensures Valid()
      ensures BuildRows() == Admit(old(BuildRows()), RowKey(MatTex(mat.tex), Some(mesh.vbo), Some(mesh.ibo), FirstPrimitive(firstIndex)))
      ensures buildInst == old(buildInst) + [RtInstance(pos, (|buildTex| - 1) % U32, blas, mat.alpha != Solid)]
      ensures |buildTex| <= U32 ==> buildInst[|buildInst| - 1].id == |buildTex| - 1
    {
      var key := RowKey(MatTex(mat.tex), Some(mesh.vbo), Some(mesh.ibo), FirstPrimitive(firstIndex));
      AdmitRow(key);
      var ix := RtInstance(pos, (|buildTex| - 1) % U32, blas, mat.alpha != Solid);
      buildInst := buildInst + [ix];
    }

    /** The row half of addInstance: push a row unless the last one has
        the same key. */
    method AdmitRow(key: RowKey)
      requires Valid()
      modifies this`buildTex, this`buildVbo, this`buildIbo, this`buildIboOff
      ensures Valid()
      ensures BuildRows() == Admit(old(BuildRows()), key)
    {
      ghost var rows0 := BuildRows();
      var n := |buildTex|;
      if n == 0 || (key.tex != buildTex[n - 1] || key.vbo != buildVbo[n - 1] ||
                    key.ibo != buildIbo[n - 1] || key.firstPrimitive != buildIboOff[n - 1]) {
        PushRow(key);
      } else {
        assert rows0[n - 1] == key;
      }
    }

    method PushRow(key: RowKey)
      requires Valid()
      modifies this`buildTex, this`buildVbo, this`buildIbo, this`buildIboOff
      ensures Valid()
      ensures BuildRows() == old(BuildRows()) + [key]
    {
      RowsSnoc(buildTex, buildVbo, buildIbo, buildIboOff, key);
      buildTex := buildTex + [key.tex];
      buildVbo := buildVbo + [key.vbo];
      buildIbo := buildIbo + [key.ibo];
      buildIboOff := buildIboOff + [key.firstPrimitive];
    }

    /** addInstance for a bare BLAS: a row with the black fallback texture
        and no buffers, and an identity-transform instance with the
        default custom index 0. */
    method AddBlasInstance(blas: BlasRef)
      requires Valid()
      modifies this`buildTex, this`buildVbo, this`buildIbo, this`buildIboOff, this`buildInst
      ensures Valid()
      ensures BuildRows() == old(BuildRows()) + [RowKey(FallbackBlack, None, None, 0)]
      ensures buildInst == old(buildInst) + [RtInstance(Identity, 0, blas, false)]
    {
      PushRow(RowKey(FallbackBlack, None, None, 0));
      buildInst := buildInst + [RtInstance(Identity, 0, blas, false)];
    }

    /** buildTlas: clears the request, builds the static BLAS, adds its
        instance and publishes the build lists, which start over empty. */
    method BuildTlas()
      requires Valid()
      modifies this
      ensures Valid() && !needToUpdate
      ensures blasStaticOpaque == old(staticOpaque)
      ensures PublishedRows() == old(BuildRows()) + [RowKey(FallbackBlack, None, None, 0)]
      ensures tlas == old(buildInst) + [RtInstance(Identity, 0, StaticOpaqueBlas, false)]
      ensures staticOpaque == [] && BuildRows() == [] && buildInst == []
    {
      needToUpdate := false;
      blasStaticOpaque := staticOpaque;
      AddBlasInstance(StaticOpaqueBlas);
      PublishBuild();
      ResetBuild();
    }

    /** The moves out of `build`. */
    method PublishBuild()
      requires Valid()
      modifies this`tex, this`vbo, this`ibo, this`iboOffset, this`tlas
      ensures Valid()
      ensures tex == buildTex && vbo == buildVbo && ibo == buildIbo && iboOffset == buildIboOff && tlas == buildInst
    {
      tex, vbo, ibo, iboOffset, tlas := buildTex, buildVbo, buildIbo, buildIboOff, buildInst;
    }

    /** `build = Build()`. */
    method ResetBuild()
      requires Valid()
      modifies this`staticOpaque, this`buildTex, this`buildVbo, this`buildIbo, this`buildIboOff, this`buildInst
      ensures Valid()
      ensures staticOpaque == [] && buildTex == [] && buildVbo == [] && buildIbo == [] && buildIboOff == []
      ensures buildInst == []
    {
      staticOpaque, buildTex, buildVbo, buildIbo, buildIboOff, buildInst := [], [], [], [], [], [];
    }
  }
}
