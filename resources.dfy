/** The asset loader (Resources): file lookup with the compiled-texture
    fallback, the loadMDS probe order, mesh classification and the three
    caches of implLoadTexture, implLoadMesh and implLoadSkeleton. */
module Resources {
  import opened Types
  import opened AssetNames

  newtype byte = x: int | 0 <= x < 256

  /** What the loader sees of the outside world: the files of the mounted
      archives, and the parts of the parsers and decoders whose outcome the
      modelled code branches on. */
  datatype Assets = Assets(
    files: map<string, seq<byte>>,   // VDFS::FileIndex: hasFile and getFileData
    ztex: seq<byte> -> seq<byte>,    // ZenLoad::convertZTEX2DDS
    decodes: seq<byte> -> bool,      // whether Tempest::Pixmap accepts the bytes
    submeshes: string -> nat)        // the sub-meshes ZenLoad's mesh parsers find in a file

  predicate HasFile(a: Assets, name: string)
  {
    name in a.files
  }

  /** The archive's getFileData: the file's bytes, or nothing. */
  function RawData(a: Assets, name: string): (r: seq<byte>)
    ensures r != [] ==> HasFile(a, name)
  {
    if name in a.files then a.files[name] else []
  }

  /** getFileData(std::string): the file's bytes; for a `.TGA` that has
      none, the converted `-C.TEX` file. */
  function FileData(a: Assets, name: string): (r: seq<byte>)
    ensures RawData(a, name) != [] ==> r == RawData(a, name)
    ensures RawData(a, name) == [] && EndsWith(name, ".TGA") ==> r == a.ztex(RawData(a, FallbackName(name)))
    ensures RawData(a, name) == [] && !EndsWith(name, ".TGA") ==> r == []
  {
    var data := RawData(a, name);
    if data != [] then data
    else if EndsWith(name, ".TGA") then a.ztex(RawData(a, FallbackName(name)))
    else data
  }

  /** A zCModelMeshLib: empty, or read from a file, optionally with an
      `.MDH` hierarchy loaded on top. */
  datatype Library = EmptyLibrary | Library(file: string, mdh: Option<string>)

  /** The result of loadMDS: the library and what the by-reference name
      was left as. */
  datatype MdsLoad = MdsLoad(lib: Library, name: string)

  /** The files loadMDS tries for a name that is not `.MDMS`, in order. */
  function Probes(name: string): (p: seq<string>)
    requires |name| >= 3
    ensures |p| == 4 && p[0] == name
  {
    [name, Replace3(name, "MDL"), Replace3(name, "MDM"), Replace3(name, "MDH")]
  }

  /** The first of `probes` the archive holds. */
  function FirstFound(a: Assets, probes: seq<string>): (r: Option<string>)
    ensures r.Some? ==> r.value in probes && HasFile(a, r.value)
    ensures r.None? <==> forall i :: 0 <= i < |probes| ==> !HasFile(a, probes[i])
  {
    if probes == [] then None
    else if HasFile(a, probes[0]) then Some(probes[0])
    else FirstFound(a, probes[1..])
  }

  /** loadMDS. */
  function LoadMds(a: Assets, name: string): (r: MdsLoad)
    requires |name| >= 3
    ensures EndsWith(name, ".MDMS") ==> r == MdsLoad(Library(name[..|name| - 1], None), name[..|name| - 1])
    ensures |r.name| == |name| || |r.name| + 1 == |name|
  {
    if EndsWith(name, ".MDMS") then
      var n := name[..|name| - 1];
      MdsLoad(Library(n, None), n)
    else if HasFile(a, name) then MdsLoad(Library(name, None), name)
    else
      var mdl := Replace3(name, "MDL");
      if HasFile(a, mdl) then MdsLoad(Library(mdl, None), mdl)
      else
        var mdm := Replace3(mdl, "MDM");
        if HasFile(a, mdm) then
          var mdh := Replace3(mdm, "MDH");
          var overlay := if HasFile(a, mdh) && FileData(a, mdh) != [] then Some(mdh) else None;
          MdsLoad(Library(mdm, overlay), mdh)
        else
          var mdh := Replace3(mdm, "MDH");
          if HasFile(a, mdh) then MdsLoad(Library(mdh, None), mdh) else MdsLoad(EmptyLibrary, mdh)
  }

  /** Overwriting the extension twice is overwriting it once. */
  lemma Replace3Twice(s: string, e1: string, e2: string)
    requires |s| >= 3 && |e1| == 3 && |e2| == 3
    ensures Replace3(Replace3(s, e1), e2) == Replace3(s, e2)
  {
    assert Replace3(s, e1)[..|s| - 3] == s[..|s| - 3];
  }

  /** loadMDS reads the first file of the probe list the archive holds,
      and returns an empty library when it holds none of them; the `.MDH`
      overlay is loaded only onto an `.MDM` library. */
  lemma LoadMdsProbeOrder(a: Assets, name: string)
    requires |name| >= 3 && !EndsWith(name, ".MDMS")
    ensures var r := LoadMds(a, name);
      && (FirstFound(a, Probes(name)).None? <==> r.lib == EmptyLibrary)
      && (FirstFound(a, Probes(name)).Some? ==> r.lib.file == FirstFound(a, Probes(name)).value)
      && (r.lib.Library? && r.lib.mdh.Some? ==> r.lib.file == Replace3(name, "MDM") && r.lib.mdh.value == Replace3(name, "MDH"))
  {
    var p := Probes(name);
    Replace3Twice(name, "MDL", "MDM");
    Replace3Twice(Replace3(name, "MDL"), "MDM", "MDH");
    Replace3Twice(name, "MDL", "MDH");
    var p1, p2, p3 := p[1..], p[2..], p[3..];
    assert p1[0] == p[1] && p1[1..] == p2;
    assert p2[0] == p[2] && p2[1..] == p3;
    assert p3[0] == p[3] && p3[1..] == [];
    assert FirstFound(a, p3) == (if HasFile(a, p[3]) then Some(p[3]) else None);
    assert FirstFound(a, p2) == (if HasFile(a, p[2]) then Some(p[2]) else FirstFound(a, p3));
    assert FirstFound(a, p1) == (if HasFile(a, p[1]) then Some(p[1]) else FirstFound(a, p2));
    assert FirstFound(a, p) == (if HasFile(a, p[0]) then Some(p[0]) else FirstFound(a, p1));
  }

  /** Resources::MeshLoadCode. */
  datatype MeshLoadCode = MeshStatic | MeshDynamic | MeshError

  /** What loadMesh leaves in its out-parameters: the code, the file the
      packed mesh was built from (if any) and the library. */
  datatype MeshLoad = MeshLoad(code: MeshLoadCode, packed: Option<string>, library: Library)

  /** The animated-model extensions loadMesh hands to loadMDS. */
  predicate IsModelName(n: string)
  {
    EndsWith(n, ".MDMS") || EndsWith(n, ".MDS") || EndsWith(n, ".MDL") || EndsWith(n, ".MDM") || EndsWith(n, ".mds")
  }

  /** loadMesh(PackedMesh&, zCModelMeshLib&, name). */
  function LoadMesh(a: Assets, name: string): (r: MeshLoad)
    ensures r.code == MeshStatic ==> r.packed == Some(CompiledName(name)) && EndsWith(CompiledName(name), ".MRM")
    ensures r.code == MeshError ==> r == MeshLoad(MeshError, None, EmptyLibrary)
    ensures r.library != EmptyLibrary ==> r.code == MeshDynamic
  {
    var n := CompiledName(name);
    if EndsWith(n, ".MRM") then
      if a.submeshes(n) == 0 then MeshLoad(MeshError, None, EmptyLibrary) else MeshLoad(MeshStatic, Some(n), EmptyLibrary)
    else if EndsWith(n, ".MMB") then
      if a.submeshes(n) == 0 then MeshLoad(MeshError, None, EmptyLibrary) else MeshLoad(MeshDynamic, Some(n), EmptyLibrary)
    else if IsModelName(n) then
      MeshLoad(MeshDynamic, None, LoadMds(a, n).lib)
    else MeshLoad(MeshError, None, EmptyLibrary)
  }

  /** The kind of mesh a name yields, by the suffix of its compiled name:
      `.MRM` is static and `.MMB` dynamic unless the parsed mesh is empty,
      the five model extensions are dynamic, anything else fails. */
  lemma MeshKindBySuffix(a: Assets, name: string)
    ensures var n := CompiledName(name); var code := LoadMesh(a, name).code;
      && (EndsWith(n, ".MRM") ==> code == (if a.submeshes(n) == 0 then MeshError else MeshStatic))
      && (EndsWith(n, ".MMB") ==> code == (if a.submeshes(n) == 0 then MeshError else MeshDynamic))
      && (IsModelName(n) ==> code == MeshDynamic)
      && (!EndsWith(n, ".MRM") && !EndsWith(n, ".MMB") && !IsModelName(n) ==> code == MeshError)
  {
    var n := CompiledName(name);
    if EndsWith(n, ".MMB") && EndsWith(n, ".MRM") {
      SuffixUnique(n, ".MMB", ".MRM");
    }
    assert EndsWith(n, ".MRM") ==> n[|n| - 2] == 'R';
    assert EndsWith(n, ".MMB") ==> n[|n| - 1] == 'B';
    assert IsModelName(n) ==> n[|n| - 2] != 'R' && n[|n| - 1] != 'B';
  }

  /** The source extensions: `.3DS` meshes are static unless empty,
      `.MMS` dynamic unless empty, `.ASC` always dynamic. */
  lemma MeshKindBySource(a: Assets, name: string)
    requires !Contains(name, "-C")
    ensures EndsWith(name, ".3DS") ==>
      LoadMesh(a, name).code == (if a.submeshes(Replace3(name, "MRM")) == 0 then MeshError else MeshStatic)
    ensures EndsWith(name, ".MMS") ==>
      LoadMesh(a, name).code == (if a.submeshes(Replace3(name, "MMB")) == 0 then MeshError else MeshDynamic)
    ensures EndsWith(name, ".ASC") ==> LoadMesh(a, name).code == MeshDynamic
  {
    CompiledNameCases(name);
    MeshKindBySuffix(a, name);
    var n := CompiledName(name);
    if EndsWith(name, ".ASC") {
      assert n[|n| - 1] == 'L';
      assert IsModelName(n);
    }
  }

  /** What a cache lookup returns (None for nullptr) and the cache after it. */
  datatype Lookup<T> = Lookup(result: Option<T>, cache: map<string, T>)

  /** A cache only gains entries, and only under the name looked up. */
  predicate Grows<T(==)>(c0: map<string, T>, c: map<string, T>, name: string)
  {
    && c0.Keys <= c.Keys <= c0.Keys + {name}
    && (forall k :: k in c0 ==> k in c && c[k] == c0[k])
  }

  /** A texture: the decoded bytes of a file, or the fallback texture. */
  datatype Texture2d = Texture2d(data: seq<byte>) | Fallback

  /** implLoadTexture. */
  function TextureLoad(a: Assets, cache: map<string, Texture2d>, name: string): (r: Lookup<Texture2d>)
    ensures name == [] ==> r == Lookup(None, cache)
    ensures name != [] && name in cache ==> r == Lookup(Some(cache[name]), cache)
    ensures name != [] ==> r.result.Some?
    ensures Grows(cache, r.cache, name)
    ensures r.cache != cache ==> r.result == Some(r.cache[name]) && r.cache[name] == Texture2d(FileData(a, name))
    ensures name !in cache && FileData(a, name) == [] ==> r == Lookup(if name == [] then None else Some(Fallback), cache)
    ensures name != [] && name !in cache && FileData(a, name) != [] ==> (r.cache != cache <==> a.decodes(FileData(a, name)))
    ensures name != [] && name !in cache && r.cache == cache ==> r.result == Some(Fallback)
  {
    if name == [] then Lookup(None, cache)
    else if name in cache then Lookup(Some(cache[name]), cache)
    else
      var data := FileData(a, name);
      if data == [] then Lookup(Some(Fallback), cache)
      else if !a.decodes(data) then Lookup(Some(Fallback), cache)
      else Lookup(Some(Texture2d(data)), cache[name := Texture2d(data)])
  }

  /** A ProtoMesh, built from the packed mesh for static meshes and from
      the library otherwise. */
  datatype ProtoMesh = FromPacked(packed: Option<string>) | FromLibrary(lib: Library)

  /** implLoadMesh. */
  function MeshCacheLoad(a: Assets, cache: map<string, ProtoMesh>, name: string): (r: Lookup<ProtoMesh>)
    ensures name == [] ==> r == Lookup(None, cache)
    ensures name != [] && name in cache ==> r == Lookup(Some(cache[name]), cache)
    ensures Grows(cache, r.cache, name)
    ensures name != [] ==> name in r.cache
    ensures name != [] && name !in cache ==>
      (r.result == None <==> LoadMesh(a, name).code == MeshError)
    ensures r.result.Some? ==> name in r.cache && r.result == Some(r.cache[name])
    ensures name != [] && name !in cache ==>
      var m := LoadMesh(a, name);
      && (m.code == MeshStatic ==> r.cache == cache[name := FromPacked(m.packed)])
      && (m.code != MeshStatic ==> r.cache == cache[name := FromLibrary(m.library)])
  {
    if name == [] then Lookup(None, cache)
    else if name in cache then Lookup(Some(cache[name]), cache)
    else
      var m := LoadMesh(a, name);
      var t := if m.code == MeshStatic then FromPacked(m.packed) else FromLibrary(m.library);
      var c := cache[name := t];
      if m.code == MeshError then Lookup(None, c) else Lookup(Some(t), c)
  }

  /** A Skeleton, built from the library of its file. */
  datatype Skeleton = Skeleton(lib: Library)

  /** implLoadSkeleton: the cache is keyed by the renamed file. */
  function SkeletonLoad(a: Assets, cache: map<string, Skeleton>, name: string): (r: Lookup<Skeleton>)
    ensures name == [] ==> r == Lookup(None, cache)
    ensures name != [] && SkeletonName(name) in cache ==> r == Lookup(Some(cache[SkeletonName(name)]), cache)
    ensures Grows(cache, r.cache, SkeletonName(name))
    ensures name != [] ==> SkeletonName(name) in r.cache
    ensures name != [] && SkeletonName(name) !in cache ==>
      (r.result == None <==> !HasFile(a, SkeletonName(name)))
    ensures r.result.Some? ==> r.result == Some(r.cache[SkeletonName(name)])
    ensures name != [] && SkeletonName(name) !in cache ==>
      r.cache == cache[SkeletonName(name) := Skeleton(Library(SkeletonName(name), None))]
  {
    if name == [] then Lookup(None, cache)
    else
      var n := SkeletonName(name);
      if n in cache then Lookup(Some(cache[n]), cache)
      else
        var s := Skeleton(Library(n, None));
        var c := cache[n := s];
        if !HasFile(a, n) then Lookup(None, c) else Lookup(Some(s), c)
  }

  /** A mesh whose load failed is cached all the same: loading it again
      returns the cached entry, not null, and reads nothing. */
  lemma MeshCachedOnFailure(a: Assets, cache: map<string, ProtoMesh>, name: string)
    requires name != [] && name !in cache && LoadMesh(a, name).code == MeshError
    ensures var first := MeshCacheLoad(a, cache, name);
      && first.result == None
      && MeshCacheLoad(a, first.cache, name) == Lookup(Some(first.cache[name]), first.cache)
  {
  }

  /** Likewise a skeleton whose file is missing. */
  lemma SkeletonCachedOnFailure(a: Assets, cache: map<string, Skeleton>, name: string)
    requires name != [] && SkeletonName(name) !in cache && !HasFile(a, SkeletonName(name))
    ensures var first := SkeletonLoad(a, cache, name);
      && first.result == None
      && SkeletonLoad(a, first.cache, name).result.Some?
  {
  }

  /** A `.MDS` skeleton and its `.MDH` file share one cache entry. */
  lemma SkeletonSharesEntry(a: Assets, cache: map<string, Skeleton>, name: string)
    requires IsSkeletonSource(name)
    ensures SkeletonLoad(a, cache, name) == SkeletonLoad(a, cache, SkeletonName(name))
  {
    SkeletonNameIdempotent(name);
  }

  /** A texture without data is not cached, so every load of it reads
      the archive again and yields the fallback. */
  lemma TextureNotCachedWithoutData(a: Assets, cache: map<string, Texture2d>, name: string)
    requires name != [] && name !in cache && FileData(a, name) == []
    ensures TextureLoad(a, cache, name) == Lookup(Some(Fallback), cache)
  {
  }

  /** Loading the same name twice: the second load changes no cache and
      returns what the first one cached. */
  lemma LoadTwice(a: Assets, tc: map<string, Texture2d>, mc: map<string, ProtoMesh>, sc: map<string, Skeleton>,
                  name: string)
    ensures var t := TextureLoad(a, tc, name);
      t.cache != tc ==> TextureLoad(a, t.cache, name) == t
    ensures var m := MeshCacheLoad(a, mc, name);
      name != [] ==> MeshCacheLoad(a, m.cache, name) == Lookup(Some(m.cache[name]), m.cache)
    ensures var s := SkeletonLoad(a, sc, name);
      name != [] ==> SkeletonLoad(a, s.cache, name) == Lookup(Some(s.cache[SkeletonName(name)]), s.cache)
  {
  }

  class ResourceCache {
    const assets: Assets
    var texCache: map<string, Texture2d>
    var aniMeshCache: map<string, ProtoMesh>
    var skeletonCache: map<string, Skeleton>

    constructor (assets: Assets)
      ensures this.assets == assets
      ensures texCache == map[] && aniMeshCache == map[] && skeletonCache == map[]
    {
      this.assets := assets;
      texCache, aniMeshCache, skeletonCache := map[], map[], map[];
    }

    method ImplLoadTexture(name: string) returns (t: Option<Texture2d>)
      modifies this`texCache
      ensures Lookup(t, texCache) == TextureLoad(assets, old(texCache), name)
    {
      var r := TextureLoad(assets, texCache, name);
      t, texCache := r.result, r.cache;
    }

    method ImplLoadMesh(name: string) returns (m: Option<ProtoMesh>)
      modifies this`aniMeshCache
      ensures Lookup(m, aniMeshCache) == MeshCacheLoad(assets, old(aniMeshCache), name)
    {
      var r := MeshCacheLoad(assets, aniMeshCache, name);
      m, aniMeshCache := r.result, r.cache;
    }

    method ImplLoadSkeleton(name: string) returns (s: Option<Skeleton>)
      modifies this`skeletonCache
      ensures Lookup(s, skeletonCache) == SkeletonLoad(assets, old(skeletonCache), name)
    {
      var r := SkeletonLoad(assets, skeletonCache, name);
      s, skeletonCache := r.result, r.cache;
    }
  }
}
