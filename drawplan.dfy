/** What drawGBuffer and drawShadow submit: one indirect draw per command
    that holds a binding set for the view, in the order of `ord`. */
module DrawPlan {
  import opened Types
  import opened Pipelines
  import opened DrawTables
  import opened DrawInvariants
  import opened CommandOrder

  /** One `setUniforms` + `drawIndirect` pair: the pipeline, the view whose
      binding set is used, the push constants, and the byte offset of the
      command's entry in the view's indirect buffer. */
  datatype DrawCall = DrawCall(pipeline: Pipeline, view: View, firstMeshlet: nat, meshletCount: nat,
                               indirectOffset: nat)

  /** The pipeline a command draws a view with: colour for V_Main, depth for
      the two shadow views. */
  function Pso(x: DrawCmd, v: View): Option<Pipeline>
  {
    if v == VMain then x.psoColor else x.psoDepth
  }

  /** A command holding a binding set for `v` has the pipeline to draw it. */
  predicate Drawable(x: DrawCmd, v: View)
  {
    v in x.bindings ==> Pso(x, v).Some?
  }

  /** Well-formed commands hold a binding set exactly for the views they
      have a pipeline for. */
  lemma BindingIffPso(x: DrawCmd, v: View)
    requires CommandOk(x)
    ensures v in x.bindings <==> Pso(x, v).Some?
    ensures Drawable(x, v)
  {
  }

  lemma AllDrawable(cmds: seq<DrawCmd>, v: View)
    requires CommandsInv(cmds)
    ensures forall c :: 0 <= c < |cmds| ==> Drawable(cmds[c], v)
  {
    forall c | 0 <= c < |cmds| ensures Drawable(cmds[c], v) {
      BindingIffPso(cmds[c], v);
    }
  }

  /** The commands of `ord`, in order, that hold a binding set for `v`. */
  function Visible(ord: seq<nat>, cmds: seq<DrawCmd>, v: View): (r: seq<nat>)
    requires forall p :: 0 <= p < |ord| ==> ord[p] < |cmds|
    ensures |r| <= |ord|
    ensures forall i :: 0 <= i < |r| ==> r[i] < |cmds| && v in cmds[r[i]].bindings
  {
    if ord == [] then []
    else
      var last := ord[|ord| - 1];
      Visible(ord[..|ord| - 1], cmds, v) + (if v in cmds[last].bindings then [last] else [])
  }

  function CallFor(cmds: seq<DrawCmd>, k: nat, v: View): DrawCall
    requires k < |cmds| && Pso(cmds[k], v).Some?
  {
    DrawCall(Pso(cmds[k], v).value, v, cmds[k].firstPayload, cmds[k].maxPayload, IndirectStride * k)
  }

  /** The calls for a list of commands. */
  function Calls(ids: seq<nat>, cmds: seq<DrawCmd>, v: View): (r: seq<DrawCall>)
    requires forall i :: 0 <= i < |ids| ==> ids[i] < |cmds| && Pso(cmds[ids[i]], v).Some?
    ensures |r| == |ids|
    ensures forall i :: 0 <= i < |ids| ==> r[i] == CallFor(cmds, ids[i], v)
  {
    if ids == [] then [] else Calls(ids[..|ids| - 1], cmds, v) + [CallFor(cmds, ids[|ids| - 1], v)]
  }

  /** What a draw pass over `ord` submits for view `v`: one call per
      command holding a binding set for the view. */
  function Plan(ord: seq<nat>, cmds: seq<DrawCmd>, v: View): (r: seq<DrawCall>)
    requires forall p :: 0 <= p < |ord| ==> ord[p] < |cmds|
    requires forall c :: 0 <= c < |cmds| ==> Drawable(cmds[c], v)
    ensures |r| == |Visible(ord, cmds, v)|
  {
    var ids := Visible(ord, cmds, v);
    assert forall i :: 0 <= i < |ids| ==> Drawable(cmds[ids[i]], v);
    Calls(ids, cmds, v)
  }

  /** Extending the order by one entry extends the plan by that entry's
      call, if it has one. */
  lemma PlanSnoc(ord: seq<nat>, cmds: seq<DrawCmd>, v: View, i: nat)
    requires i < |ord|
    requires forall p :: 0 <= p < |ord| ==> ord[p] < |cmds|
    requires forall c :: 0 <= c < |cmds| ==> Drawable(cmds[c], v)
    ensures Plan(ord[..i + 1], cmds, v) ==
      Plan(ord[..i], cmds, v) + (if v in cmds[ord[i]].bindings then [CallFor(cmds, ord[i], v)] else [])
  {
    var k := ord[i];
    var vis := Visible(ord[..i], cmds, v);
    assert ord[..i + 1][..i] == ord[..i];
    if v in cmds[k].bindings {
      assert (vis + [k])[..|vis|] == vis;
    }
  }

  lemma {:induction false} VisibleMembers(ord: seq<nat>, cmds: seq<DrawCmd>, v: View, k: nat)
    requires forall p :: 0 <= p < |ord| ==> ord[p] < |cmds|
    ensures k in Visible(ord, cmds, v) <==> k in ord && v in cmds[k].bindings
  {
    if ord != [] {
      var init := ord[..|ord| - 1];
      VisibleMembers(init, cmds, v, k);
      assert ord == init + [ord[|ord| - 1]];
    }
  }

  /** In a duplicate-free sorted order, an entry before the last one is
      not the last one and does not rank above it. */
  lemma BeforeLast(ord: seq<nat>, cmds: seq<DrawCmd>, x: nat)
    requires ord != [] && x in ord[..|ord| - 1]
    requires forall p :: 0 <= p < |ord| ==> ord[p] < |cmds|
    requires forall p, q :: 0 <= p < q < |ord| ==> ord[p] != ord[q]
    requires RankSorted(ord, cmds)
    ensures x != ord[|ord| - 1] && Rank(cmds[x].alpha) <= Rank(cmds[ord[|ord| - 1]].alpha)
  {
    var p :| 0 <= p < |ord| - 1 && ord[..|ord| - 1][p] == x;
    assert ord[p] == x;
  }

  /** Appending an entry that differs from every earlier one and ranks
      no lower keeps a list duplicate-free and sorted. */
  lemma SnocDistinctSorted(r0: seq<nat>, last: nat, cmds: seq<DrawCmd>)
    requires (forall i, j :: 0 <= i < j < |r0| ==> r0[i] != r0[j]) && RankSorted(r0, cmds)
    requires last < |cmds|
    requires forall i :: 0 <= i < |r0| ==> r0[i] != last && r0[i] < |cmds| && Rank(cmds[r0[i]].alpha) <= Rank(cmds[last].alpha)
    ensures var r := r0 + [last];
      (forall i, j :: 0 <= i < j < |r| ==> r[i] != r[j]) && RankSorted(r, cmds)
  {
    var r := r0 + [last];
    forall i, j | 0 <= i < j < |r| ensures r[i] != r[j] {
      if j < |r0| {
        assert r[i] == r0[i] && r[j] == r0[j];
      }
    }
    forall p, q | 0 <= p < q < |r| && r[p] < |cmds| && r[q] < |cmds|
      ensures Rank(cmds[r[p]].alpha) <= Rank(cmds[r[q]].alpha)
    {
      if q < |r0| {
        assert r[p] == r0[p] && r[q] == r0[q];
      }
    }
  }

  /** Filtering keeps a list duplicate-free and keeps it in alpha order. */
  lemma {:induction false} VisibleDistinctSorted(ord: seq<nat>, cmds: seq<DrawCmd>, v: View)
    requires forall p :: 0 <= p < |ord| ==> ord[p] < |cmds|
    requires forall p, q :: 0 <= p < q < |ord| ==> ord[p] != ord[q]
    requires RankSorted(ord, cmds)
    ensures var r := Visible(ord, cmds, v);
      (forall i, j :: 0 <= i < j < |r| ==> r[i] != r[j]) && RankSorted(r, cmds)
  {
    if ord != [] {
      var init := ord[..|ord| - 1];
      var last := ord[|ord| - 1];
      VisibleDistinctSorted(init, cmds, v);
      var r0 := Visible(init, cmds, v);
      if v in cmds[last].bindings {
        forall i | 0 <= i < |r0| ensures r0[i] != last && Rank(cmds[r0[i]].alpha) <= Rank(cmds[last].alpha) {
          VisibleMembers(init, cmds, v, r0[i]);
          BeforeLast(ord, cmds, r0[i]);
        }
        SnocDistinctSorted(r0, last, cmds);
      }
    }
  }

  /** With `ord` a sorted permutation of well-formed commands, the plan for
      a view draws every command that has a pipeline for it, and each exactly
      once, Solid before AlphaTest. */
  lemma PlanCovers(ord: seq<nat>, cmds: seq<DrawCmd>, v: View)
    requires IsPermutation(ord, |cmds|) && RankSorted(ord, cmds) && CommandsInv(cmds)
    ensures var r := Visible(ord, cmds, v);
      && (forall k :: 0 <= k < |cmds| ==> (k in r <==> Pso(cmds[k], v).Some?))
      && (forall i, j :: 0 <= i < j < |r| ==> r[i] != r[j])
      && RankSorted(r, cmds)
  {
    forall k | 0 <= k < |cmds| ensures k in Visible(ord, cmds, v) <==> Pso(cmds[k], v).Some? {
      VisibleMembers(ord, cmds, v, k);
      BindingIffPso(cmds[k], v);
    }
    VisibleDistinctSorted(ord, cmds, v);
  }

  /** Every command has a depth pipeline, so a shadow view draws them all. */
  lemma ShadowDrawsAll(cmds: seq<DrawCmd>, k: nat, v: View)
    requires CommandsInv(cmds) && k < |cmds| && v != VMain
    ensures Pso(cmds[k], v).Some?
  {
    assert CommandOk(cmds[k]);
  }

  /** Only Landscape and Static opaque commands reach the G-buffer pass, with
      one of the four G-buffer pipelines. */
  lemma GBufferPipelines(cmds: seq<DrawCmd>, k: nat)
    requires CommandsInv(cmds) && k < |cmds| && Pso(cmds[k], VMain).Some?
    ensures Pso(cmds[k], VMain).value in {ClusterLndGBuf, ClusterObjGBuf, ClusterLndGBufAt, ClusterObjGBufAt}
  {
    assert CommandOk(cmds[k]);
  }

  /** Entry `i` of the plan is the call for the `i`-th visible command. */
  lemma PlanCalls(ord: seq<nat>, cmds: seq<DrawCmd>, v: View)
    requires forall p :: 0 <= p < |ord| ==> ord[p] < |cmds|
    requires CommandsInv(cmds)
    ensures var ids := Visible(ord, cmds, v);
      forall i :: 0 <= i < |ids| ==>
        ids[i] < |cmds| && Pso(cmds[ids[i]], v).Some? && Plan(ord, cmds, v)[i] == CallFor(cmds, ids[i], v)
  {
    AllDrawable(cmds, v);
  }

  /** The G-buffer pass uses only the four G-buffer pipelines. */
  lemma GBufferPlan(ord: seq<nat>, cmds: seq<DrawCmd>)
    requires forall p :: 0 <= p < |ord| ==> ord[p] < |cmds|
    requires CommandsInv(cmds)
    ensures forall i :: 0 <= i < |Plan(ord, cmds, VMain)| ==>
      Plan(ord, cmds, VMain)[i].pipeline in {ClusterLndGBuf, ClusterObjGBuf, ClusterLndGBufAt, ClusterObjGBufAt}
  {
    PlanCalls(ord, cmds, VMain);
    var ids := Visible(ord, cmds, VMain);
    forall i | 0 <= i < |ids| ensures Pso(cmds[ids[i]], VMain).value in {ClusterLndGBuf, ClusterObjGBuf, ClusterLndGBufAt, ClusterObjGBufAt} {
      GBufferPipelines(cmds, ids[i]);
    }
  }

  /** A shadow pass uses only the two depth pipelines. */
  lemma ShadowPlan(ord: seq<nat>, cmds: seq<DrawCmd>, v: View)
    requires forall p :: 0 <= p < |ord| ==> ord[p] < |cmds|
    requires CommandsInv(cmds) && v != VMain
    ensures forall i :: 0 <= i < |Plan(ord, cmds, v)| ==> Plan(ord, cmds, v)[i].pipeline in {ClusterDepth, ClusterDepthAt}
  {
    PlanCalls(ord, cmds, v);
    var ids := Visible(ord, cmds, v);
    forall i | 0 <= i < |ids| ensures Pso(cmds[ids[i]], v).value in {ClusterDepth, ClusterDepthAt} {
      assert CommandOk(cmds[ids[i]]);
    }
  }
}
