/** The name rewriting of the asset loader: suffix tests, the skeleton
    rename, the compiled-mesh extensions and the texture fallback name. */
module AssetNames {
  import opened Types

  const U64: nat := 0x1_0000_0000_0000_0000

  /** std::string::npos. */
  const Npos: nat := 0xFFFF_FFFF_FFFF_FFFF

  /** `x` occurs in `s` at position `i`. */
  predicate OccursAt(s: string, x: string, i: nat)
  {
    i + |x| <= |s| && s[i..i + |x|] == x
  }

  ghost predicate Contains(s: string, x: string)
  {
    exists i: nat :: OccursAt(s, x, i)
  }

  /** The last occurrence of `x` at a position no greater than `i`. */
  function RFindAt(s: string, x: string, i: nat): (r: Option<nat>)
    requires i + |x| <= |s|
    ensures r.Some? ==> r.value <= i && OccursAt(s, x, r.value)
    ensures r.Some? ==> forall j: nat :: r.value < j <= i ==> !OccursAt(s, x, j)
    ensures r.None? ==> forall j: nat :: j <= i ==> !OccursAt(s, x, j)
    decreases i
  {
    if s[i..i + |x|] == x then Some(i) else if i == 0 then None else RFindAt(s, x, i - 1)
  }

  /** `s.rfind(x)`, with None for npos. */
  function RFind(s: string, x: string): (r: Option<nat>)
    ensures r.Some? ==> OccursAt(s, x, r.value) && forall j: nat :: r.value < j ==> !OccursAt(s, x, j)
    ensures r.None? <==> !Contains(s, x)
  {
    if |x| > |s| then None else RFindAt(s, x, |s| - |x|)
  }

  /** The suffix test of the source, `s.rfind(x) == s.size() - x.size()`,
      in 64-bit unsigned arithmetic. */
  function SuffixTest(s: string, x: string): bool
  {
    var rhs := (|s| - |x|) % U64;
    match RFind(s, x)
    case None => rhs == Npos
    case Some(p) => p == rhs
  }

  /** `s` ends with `x`: what the suffix test means to say. */
  predicate EndsWith(s: string, x: string)
  {
    |x| <= |s| && s[|s| - |x|..] == x
  }

  /** The suffix test passes for names ending in the suffix and, through
      the unsigned wrap of `size() - len` to npos, for every name exactly
      one character shorter than the suffix. */
  lemma SuffixTestIff(s: string, x: string)
    requires |s| < U64 && |x| <= U64
    ensures SuffixTest(s, x) <==> EndsWith(s, x) || |s| + 1 == |x|
  {
    if |x| <= |s| {
      if EndsWith(s, x) {
        assert OccursAt(s, x, |s| - |x|);
      }
    }
  }

  /** A three-letter name passes the `.MDS` test although it does not end
      with `.MDS`. */
  lemma SuffixTestWraps()
    ensures SuffixTest("abc", ".MDS") && !EndsWith("abc", ".MDS")
  {
    assert RFind("abc", ".MDS") == None;
  }

  /** `memcpy(&name[name.size()-3], ext, 3)`: overwrite the last three
      characters. */
  function Replace3(s: string, ext: string): (r: string)
    requires |s| >= 3 && |ext| == 3
    ensures |r| == |s| && r[..|s| - 3] == s[..|s| - 3] && EndsWith(r, ext)
  {
    s[..|s| - 3] + ext
  }

  /** Two suffixes of the same length a name ends with are the same. */
  lemma SuffixUnique(s: string, x: string, y: string)
    requires EndsWith(s, x) && EndsWith(s, y) && |x| == |y|
    ensures x == y
  {
  }

  predicate IsSkeletonSource(name: string)
  {
    EndsWith(name, ".MDS") || EndsWith(name, ".mds")
  }

  /** The rename of implLoadSkeleton as written, with the source's suffix
      test. */
  function SkeletonNameAsWritten(name: string): (r: string)
    ensures |r| == |name|
    ensures |name| < 3 ==> r == name
  {
    if |name| >= 3 && (SuffixTest(name, ".MDS") || SuffixTest(name, ".mds")) then Replace3(name, "MDH") else name
  }

  /** With the source's test a three-letter name is replaced entirely. */
  lemma SkeletonRenameWraps()
    ensures SkeletonNameAsWritten("abc") == "MDH"
  {
    SuffixTestWraps();
  }

  /** implLoadSkeleton's rename: a `.MDS` or `.mds` name becomes the `.MDH`
      file of the same stem; other names are kept. */
  function SkeletonName(name: string): (r: string)
    ensures |r| == |name|
    ensures IsSkeletonSource(name) ==> r[..|name| - 3] == name[..|name| - 3] && EndsWith(r, ".MDH")
    ensures !IsSkeletonSource(name) ==> r == name
  {
    if IsSkeletonSource(name) then
      var r := Replace3(name, "MDH");
      Rewritten(name, if EndsWith(name, ".MDS") then ".MDS" else ".mds", ".MDH");
      r
    else name
  }

  /** Renaming twice is renaming once: an `.MDH` name is not renamed. */
  lemma SkeletonNameIdempotent(name: string)
    ensures SkeletonName(SkeletonName(name)) == SkeletonName(name)
  {
    var r := SkeletonName(name);
    if IsSkeletonSource(name) {
      assert r[|r| - 1] == 'H';
      assert !EndsWith(r, ".MDS") && !EndsWith(r, ".mds") by {
        if EndsWith(r, ".MDS") { SuffixUnique(r, ".MDS", ".MDH"); }
        if EndsWith(r, ".mds") { SuffixUnique(r, ".mds", ".MDH"); }
      }
    }
  }

  /** The compiled-mesh name loadMesh reads: unless the name contains
      `-C`, a `.3DS` name becomes `.MRM`, `.MMS` becomes `.MMB` and `.ASC`
      becomes `.MDL`. */
  function CompiledName(name: string): (r: string)
    ensures |r| == |name|
    ensures Contains(name, "-C") ==> r == name
    ensures r != name ==> |name| >= 4 && r[..|name| - 3] == name[..|name| - 3]
  {
    if RFind(name, "-C") != None then name
    else if EndsWith(name, ".3DS") then Replace3(name, "MRM")
    else if EndsWith(name, ".MMS") then Replace3(name, "MMB")
    else if EndsWith(name, ".ASC") then Replace3(name, "MDL")
    else name
  }

  /** A name ending in a dot and a three-letter extension, re-extended,
      ends in the dot and the new extension. */
  lemma Rewritten(name: string, src: string, dst: string)
    requires |src| == 4 && |dst| == 4 && src[0] == '.' && dst[0] == '.' && EndsWith(name, src)
    ensures EndsWith(Replace3(name, dst[1..]), dst)
  {
    var r := Replace3(name, dst[1..]);
    assert r[|r| - 4] == name[|name| - 4] == '.';
    assert r[|r| - 4..] == [r[|r| - 4]] + r[|r| - 3..];
  }

  /** Exactly the three source extensions are rewritten, each to its own
      compiled extension. */
  lemma CompiledNameCases(name: string)
    ensures !Contains(name, "-C") && EndsWith(name, ".3DS") ==> EndsWith(CompiledName(name), ".MRM")
    ensures !Contains(name, "-C") && EndsWith(name, ".MMS") ==> EndsWith(CompiledName(name), ".MMB")
    ensures !Contains(name, "-C") && EndsWith(name, ".ASC") ==> EndsWith(CompiledName(name), ".MDL")
    ensures !EndsWith(name, ".3DS") && !EndsWith(name, ".MMS") && !EndsWith(name, ".ASC") ==>
      CompiledName(name) == name
  {
    if !Contains(name, "-C") {
      if EndsWith(name, ".3DS") {
        Rewritten(name, ".3DS", ".MRM");
      } else if EndsWith(name, ".MMS") {
        Rewritten(name, ".MMS", ".MMB");
      } else if EndsWith(name, ".ASC") {
        Rewritten(name, ".ASC", ".MDL");
      }
    }
  }

  /** Rewriting never introduces `-C`: the new extension and the dot
      before it hold no `-`. */
  lemma RewriteKeepsNoC(name: string, ext: string)
    requires |name| >= 4 && name[|name| - 4] == '.' && |ext| == 3 && '-' !in ext
    requires !Contains(name, "-C")
    ensures !Contains(Replace3(name, ext), "-C")
  {
    var r := Replace3(name, ext);
    forall i: nat ensures !OccursAt(r, "-C", i) {
      if i + 2 <= |name| - 3 {
        assert r[i..i + 2] == name[i..i + 2];
        assert !OccursAt(name, "-C", i);
      } else if i + 2 <= |r| {
        assert r[i..i + 2][0] == r[i];
        if i == |name| - 4 {
          assert r[i] == '.';
        } else {
          assert r[i] == ext[i - (|name| - 3)];
        }
      }
    }
  }

  /** A rewritten name is left alone by a second rewrite. */
  lemma RewriteFixed(name: string, src: string, ext: string)
    requires |src| == 4 && src[0] == '.' && EndsWith(name, src) && !Contains(name, "-C")
    requires |ext| == 3 && '-' !in ext && ext[2] != 'S' && ext[2] != 'C'
    ensures CompiledName(Replace3(name, ext)) == Replace3(name, ext)
  {
    assert name[|name| - 4] == src[0];
    RewriteKeepsNoC(name, ext);
    var r := Replace3(name, ext);
    assert r[|r| - 1] == ext[2];
  }

  /** A compiled name is its own compiled name. */
  lemma CompiledNameIdempotent(name: string)
    ensures CompiledName(CompiledName(name)) == CompiledName(name)
  {
    if RFind(name, "-C") == None {
      if EndsWith(name, ".3DS") {
        RewriteFixed(name, ".3DS", "MRM");
      } else if EndsWith(name, ".MMS") {
        RewriteFixed(name, ".MMS", "MMB");
      } else if EndsWith(name, ".ASC") {
        RewriteFixed(name, ".ASC", "MDL");
      }
    }
  }

  /** The compiled-texture name getFileData probes for a missing `.TGA`:
      the stem followed by `-C.TEX`. */
  function FallbackName(name: string): (r: string)
    requires EndsWith(name, ".TGA")
    ensures |r| == |name| + 2
    ensures r[..|name| - 4] == name[..|name| - 4] && EndsWith(r, "-C.TEX")
  {
    name[..|name| - 4] + "-C.TEX"
  }
}
