/** A cluster that emits nothing new comes to rest, because receipts are never published again. */
module Quiescence {
  import opened Ids
  import opened SessionTable
  import opened Events
  import opened FanOut

  /** Each queued item can still become one inbox copy per instance. */
  function Weight(n: Node, size: nat): nat { |n.queue| * (size + 1) + |n.inbox| }

  function Total(nodes: seq<Node>, size: nat): nat {
    if nodes == [] then 0 else Total(nodes[..|nodes| - 1], size) + Weight(nodes[|nodes| - 1], size)
  }

  function Measure(c: Cluster): nat { Total(c.nodes, |c.nodes|) }

  /** The steps that move a message along. */
  predicate Progress(step: Step) {
    step.PublishStep? || step.PublishFails? || step.ReceiveStep? || step.SkipStep?
  }

  lemma {:induction false} TotalUpdate(nodes: seq<Node>, i: nat, n: Node, size: nat)
    requires i < |nodes|
    ensures Total(nodes[i := n], size) == Total(nodes, size) - Weight(nodes[i], size) + Weight(n, size)
  {
    var last := |nodes| - 1;
    if i < last {
      TotalUpdate(nodes[..last], i, n, size);
      assert nodes[i := n][..last] == nodes[..last][i := n];
    } else {
      assert nodes[i := n][..last] == nodes[..last];
    }
  }

  lemma {:induction false} TotalAccept(nodes: seq<Node>, accepted: seq<Node>, x: Item, size: nat)
    requires |accepted| == |nodes|
    requires forall j :: 0 <= j < |nodes| ==> accepted[j] == Accept(nodes[j], x)
    ensures Total(accepted, size) <= Total(nodes, size) + |nodes|
  {
    if nodes == [] {
    } else {
      TotalAccept(nodes[..|nodes| - 1], accepted[..|nodes| - 1], x, size);
    }
  }

  lemma PublishDecreases(c: Cluster, i: NodeId)
    requires HubsValid(c) && Enabled(c, PublishStep(i))
    ensures Measure(Next(c, PublishStep(i))) < Measure(c)
  {
    var n, size := c.nodes[i], |c.nodes|;
    var moved := c.nodes[i := Depart(n, true)];
    TotalUpdate(c.nodes, i, Depart(n, true), size);
    TotalAccept(moved, Next(c, PublishStep(i)).nodes, n.queue[0], size);
    OneLess(|n.queue|, size + 1);
  }

  lemma OneLess(k: nat, w: nat)
    requires k >= 1
    ensures (k - 1) * w == k * w - w
  {
  }

  lemma StepMeasure(c: Cluster, step: Step)
    requires HubsValid(c) && Enabled(c, step) && !step.EmitStep?
    ensures if Progress(step) then Measure(Next(c, step)) < Measure(c) else Measure(Next(c, step)) <= Measure(c)
  {
    hide Apply, Total;
    if step.PublishStep? {
      PublishDecreases(c, step.i);
    } else {
      var n := c.nodes[step.i];
      TotalUpdate(c.nodes, step.i, Next(c, step).nodes[step.i], |c.nodes|);
      if step.PublishFails? { OneLess(|n.queue|, |c.nodes| + 1); }
    }
  }

  function ProgressSteps(steps: seq<Step>): nat {
    if steps == [] then 0
    else ProgressSteps(steps[..|steps| - 1]) + if Progress(steps[|steps| - 1]) then 1 else 0
  }

  /** Without new emissions a run takes no more publish and receive steps than the measure of the
      state it starts from. */
  lemma {:induction false} QuiescesWithoutEmissions(cs: seq<Cluster>, steps: seq<Step>)
    requires IsRun(cs, steps) && forall s :: s in steps ==> !s.EmitStep?
    ensures ProgressSteps(steps) + Measure(cs[|steps|]) <= Measure(cs[0])
  {
    hide Next, Enabled, HubsValid, Measure;
    if steps == [] {
    } else {
      var n := |steps| - 1;
      QuiescesWithoutEmissions(cs[..n + 1], steps[..n]);
      StepMeasure(cs[n], steps[n]);
    }
  }

  lemma {:induction false} TotalIsZeroIffIdle(nodes: seq<Node>, size: nat)
    ensures Total(nodes, size) == 0 <==> forall i :: 0 <= i < |nodes| ==> nodes[i].queue == [] && nodes[i].inbox == []
  {
    if nodes == [] {
    } else {
      var last := |nodes| - 1;
      TotalIsZeroIffIdle(nodes[..last], size);
      assert forall i :: 0 <= i < last ==> nodes[..last][i] == nodes[i];
    }
  }

  /** Nothing waits in any queue or inbox. */
  ghost predicate Idle(c: Cluster) {
    forall i :: 0 <= i < |c.nodes| ==> c.nodes[i].queue == [] && c.nodes[i].inbox == []
  }

  /** And no such step is possible exactly when every queue and inbox is empty, that is, when the
      measure has come down to zero. */
  lemma StuckIffIdle(c: Cluster)
    ensures Idle(c) <==> !exists step :: Progress(step) && Enabled(c, step)
    ensures Idle(c) <==> Measure(c) == 0
  {
    TotalIsZeroIffIdle(c.nodes, |c.nodes|);
    if !Idle(c) {
      var i :| 0 <= i < |c.nodes| && !(c.nodes[i].queue == [] && c.nodes[i].inbox == []);
      assert Enabled(c, PublishStep(i)) || Enabled(c, ReceiveStep(i));
    }
  }
}
