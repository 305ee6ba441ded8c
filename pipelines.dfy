/** The pipeline lookup of the draw storage: which of the six cluster
    shaders draws a material on an object category. */
module Pipelines {
  import opened Types

  /** The six render pipelines the draw storage selects from. */
  datatype Pipeline =
    | ClusterLndGBuf | ClusterObjGBuf | ClusterLndGBufAt | ClusterObjGBufAt
    | ClusterDepth | ClusterDepthAt

  /** True for the two alpha functions the cluster pipelines support. */
  predicate Opaque(a: AlphaFunc)
  {
    a == Solid || a == AlphaTest
  }

  /** pipelineColor: the G-buffer pipeline, or None.  A Solid material on
      a category without a Solid pipeline falls through to the AlphaTest
      cases, which have none either, so the result is None. */
  function PipelineColor(m: Material, t: ObjType): (p: Option<Pipeline>)
    ensures p.Some? <==> Opaque(m.alpha) && (t == Landscape || t == Static)
    ensures p.Some? ==> (p.value == ClusterLndGBuf || p.value == ClusterLndGBufAt) == (t == Landscape)
    ensures p.Some? ==> (p.value == ClusterLndGBufAt || p.value == ClusterObjGBufAt) == (m.alpha == AlphaTest)
  {
    if m.alpha == Solid then
      if t == Landscape then Some(ClusterLndGBuf)
      else if t == Static then Some(ClusterObjGBuf)
      else None
    else if m.alpha == AlphaTest then
      if t == Landscape then Some(ClusterLndGBufAt)
      else if t == Static then Some(ClusterObjGBufAt)
      else None
    else None
  }

  /** pipelineDepth: the depth (shadow) pipeline, or None; the category is
      not consulted. */
  function PipelineDepth(m: Material, t: ObjType): (p: Option<Pipeline>)
    ensures p.Some? <==> Opaque(m.alpha)
    ensures p == Some(ClusterDepth) <==> m.alpha == Solid
    ensures p == Some(ClusterDepthAt) <==> m.alpha == AlphaTest
  {
    if m.alpha == Solid then Some(ClusterDepth)
    else if m.alpha == AlphaTest then Some(ClusterDepthAt)
    else None
  }

  /** A colour pipeline never exists without a depth pipeline, so the only
      way for both to be missing is a non-opaque alpha function. */
  lemma ColorImpliesDepth(m: Material, t: ObjType)
    ensures PipelineColor(m, t).Some? ==> PipelineDepth(m, t).Some?
    ensures PipelineColor(m, t).None? && PipelineDepth(m, t).None? <==> !Opaque(m.alpha)
  {
  }

  /** The pair of pipelines determines the alpha function: two materials
      that resolve to the same non-empty pair have the same alpha. */
  lemma PairDeterminesAlpha(m1: Material, t1: ObjType, m2: Material, t2: ObjType)
    requires PipelineDepth(m1, t1).Some?
    requires PipelineColor(m1, t1) == PipelineColor(m2, t2)
    requires PipelineDepth(m1, t1) == PipelineDepth(m2, t2)
    ensures m1.alpha == m2.alpha
  {
  }
}
