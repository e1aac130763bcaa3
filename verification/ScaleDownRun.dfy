/** The scale-down reconcile as the controllers run it: against a node list keyed by node ids,
    updating the pool's status and replica count in place. */
module ScaleDownRun {
  import opened Text
  import opened ScaleDown
  import opened ScaleDownSteps

  datatype ClusterNode = ClusterNode(nodeId: string, address: string, status: NodeStatus)

  ghost predicate Distinct(nodes: seq<ClusterNode>) {
    forall i, j :: 0 <= i < j < |nodes| ==> nodes[i].address != nodes[j].address && nodes[i].nodeId != nodes[j].nodeId
  }

  /** The statuses by address that the protocol reasons about. */
  ghost function View(nodes: seq<ClusterNode>): (r: map<string, NodeStatus>) {
    if nodes == [] then map[] else View(nodes[1..])[nodes[0].address := nodes[0].status]
  }

  lemma {:induction false} ViewIsListing(nodes: seq<ClusterNode>)
    requires Distinct(nodes)
    ensures forall a :: a in View(nodes) <==> exists i :: 0 <= i < |nodes| && nodes[i].address == a
    ensures forall i :: 0 <= i < |nodes| ==>
              nodes[i].address in View(nodes) && View(nodes)[nodes[i].address] == nodes[i].status
  {
    if nodes != [] {
      var rest := nodes[1..];
      ViewIsListing(rest);
      forall a ensures a in View(nodes) <==> exists i :: 0 <= i < |nodes| && nodes[i].address == a {
        if a in View(rest) { var i :| 0 <= i < |rest| && rest[i].address == a; assert nodes[i + 1].address == a; }
        if i :| 0 <= i < |nodes| && nodes[i].address == a && i > 0 { assert rest[i - 1].address == a; }
      }
      forall i | 0 <= i < |nodes| ensures nodes[i].address in View(nodes)
      && View(nodes)[nodes[i].address] == nodes[i].status {
        if i > 0 { assert rest[i - 1] == nodes[i]; }
      }
    }
  }

  function WithStatus(nodes: seq<ClusterNode>, nodeId: string, status: NodeStatus): (r: seq<ClusterNode>) {
    seq(|nodes|, i requires 0 <= i < |nodes| =>
      if nodes[i].nodeId == nodeId then nodes[i].(status := status) else nodes[i])
  }

  function WithoutNode(nodes: seq<ClusterNode>, nodeId: string): (r: seq<ClusterNode>) {
    if nodes == [] then []
    else if nodes[0].nodeId == nodeId then WithoutNode(nodes[1..], nodeId)
    else [nodes[0]] + WithoutNode(nodes[1..], nodeId)
  }

  lemma MapsCommute(m: map<string, NodeStatus>, a: string, x: NodeStatus, b: string, y: NodeStatus)
    requires a != b
    ensures m[a := x][b := y] == m[b := y][a := x]
    ensures (m - {a})[b := y] == m[b := y] - {a}
  {
  }

  lemma {:induction false} ViewOfReplaced(nodes: seq<ClusterNode>, i: nat, status: NodeStatus)
    requires Distinct(nodes) && i < |nodes|
    ensures View(nodes[i := nodes[i].(status := status)]) == View(nodes)[nodes[i].address := status]
  {
    var next, rest := nodes[i := nodes[i].(status := status)], nodes[1..];
    if i == 0 {
      assert next[1..] == rest;
    } else {
      assert rest[i - 1] == nodes[i];
      assert next[1..] == rest[i - 1 := nodes[i].(status := status)];
      DistinctTail(nodes);
      ViewOfReplaced(rest, i - 1, status);
      MapsCommute(View(rest), nodes[i].address, status, nodes[0].address, nodes[0].status);
    }
  }

  lemma DistinctTail(nodes: seq<ClusterNode>)
    requires Distinct(nodes) && nodes != []
    ensures Distinct(nodes[1..])
  {
  }

  lemma ViewOfUpdate(nodes: seq<ClusterNode>, i: nat, status: NodeStatus)
    requires Distinct(nodes) && i < |nodes|
    ensures Distinct(WithStatus(nodes, nodes[i].nodeId, status))
    ensures View(WithStatus(nodes, nodes[i].nodeId, status)) == View(nodes)[nodes[i].address := status]
  {
    assert WithStatus(nodes, nodes[i].nodeId, status) == nodes[i := nodes[i].(status := status)];
    ViewOfReplaced(nodes, i, status);
  }

  lemma {:induction false} WithoutAbsentNode(nodes: seq<ClusterNode>, nodeId: string)
    requires forall i :: 0 <= i < |nodes| ==> nodes[i].nodeId != nodeId
    ensures WithoutNode(nodes, nodeId) == nodes
  {
    if nodes != [] {
      WithoutAbsentNode(nodes[1..], nodeId);
      assert nodes == [nodes[0]] + nodes[1..];
    }
  }

  /** Dropping one entry of a listing with distinct ids. */
  lemma {:induction false} WithoutListedNode(nodes: seq<ClusterNode>, i: nat)
    requires Distinct(nodes) && i < |nodes|
    ensures WithoutNode(nodes, nodes[i].nodeId) == nodes[..i] + nodes[i + 1..]
  {
    if i == 0 {
      WithoutAbsentNode(nodes[1..], nodes[0].nodeId);
    } else {
      assert nodes[1..][i - 1] == nodes[i];
      WithoutListedNode(nodes[1..], i - 1);
      assert nodes[0].nodeId != nodes[i].nodeId;
      assert [nodes[0]] + (nodes[1..][..i - 1] + nodes[1..][i..]) == nodes[..i] + nodes[i + 1..];
    }
  }

  lemma {:induction false} ViewOfGap(nodes: seq<ClusterNode>, i: nat)
    requires Distinct(nodes) && i < |nodes|
    ensures View(nodes[..i] + nodes[i + 1..]) == View(nodes) - {nodes[i].address}
  {
    var gap, rest := nodes[..i] + nodes[i + 1..], nodes[1..];
    DistinctTail(nodes);
    if i == 0 {
      assert gap == rest;
      ViewIsListing(rest);
      assert nodes[0].address !in View(rest);
      assert View(rest)[nodes[0].address := nodes[0].status] - {nodes[0].address} == View(rest);
    } else {
      assert gap[1..] == rest[..i - 1] + rest[i..];
      assert rest[i - 1] == nodes[i];
      ViewOfGap(rest, i - 1);
      assert gap[0] == nodes[0];
      MapsCommute(View(rest), nodes[i].address, nodes[i].status, nodes[0].address, nodes[0].status);
    }
  }

  lemma ViewOfRemoval(nodes: seq<ClusterNode>, i: nat)
    requires Distinct(nodes) && i < |nodes|
    ensures Distinct(WithoutNode(nodes, nodes[i].nodeId))
    ensures View(WithoutNode(nodes, nodes[i].nodeId)) == View(nodes) - {nodes[i].address}
  {
    WithoutListedNode(nodes, i);
    ViewOfGap(nodes, i);
  }

  /** The first listed node at an address, or the length of the list. */
  function FirstAt(nodes: seq<ClusterNode>, address: string): (i: nat)
    ensures i <= |nodes| && (i < |nodes| ==> nodes[i].address == address)
    ensures forall k :: 0 <= k < i ==> nodes[k].address != address
  {
    if nodes == [] || nodes[0].address == address then 0 else 1 + FirstAt(nodes[1..], address)
  }

  lemma {:induction false} ViewIsFirst(nodes: seq<ClusterNode>, address: string)
    ensures address in View(nodes) <==> FirstAt(nodes, address) < |nodes|
    ensures address in View(nodes) ==> View(nodes)[address] == nodes[FirstAt(nodes, address)].status
  {
    if nodes != [] {
      ViewIsFirst(nodes[1..], address);
    }
  }

  /** findClusterNodeByAddress: the first listed node at the address. */
  method FindClusterNodeByAddress(nodes: seq<ClusterNode>, address: string) returns (found: Option<nat>)
    ensures found.None? <==> address !in View(nodes)
    ensures found.Some? ==>
              found.value == FirstAt(nodes, address) < |nodes| && View(nodes)[address] == nodes[found.value].status
  {
    found := None;
    ViewIsFirst(nodes, address);
    for i := 0 to |nodes|
      invariant forall k :: 0 <= k < i ==> nodes[k].address != address
    {
      if nodes[i].address == address {
        return Some(i);
      }
    }
  }

  /** The cluster controller endpoint. */
  class ClusterApi {
    var nodes: seq<ClusterNode>

    method SetClusterNodeState(nodeId: string, status: NodeStatus)
      modifies this
      ensures nodes == WithStatus(old(nodes), nodeId, status)
    {
      nodes := WithStatus(nodes, nodeId, status);
    }

    method DeleteClusterNode(nodeId: string)
      modifies this
      ensures nodes == WithoutNode(old(nodes), nodeId)
    {
      nodes := WithoutNode(nodes, nodeId);
    }
  }

  ghost function AfterCall(nodes: map<string, NodeStatus>, address: string, call: Call): (r: map<string, NodeStatus>) {
    match call
    case NoCall => nodes
    case SetState(status) => nodes[address := status]
    case Remove => nodes - {address}
  }

  ghost function TopOf(nodes: map<string, NodeStatus>, address: string): (r: Option<NodeStatus>) {
    if address in nodes then Some(nodes[address]) else None
  }

  /** The list after a call on the first node at an address. */
  function ListAfter(nodes: seq<ClusterNode>, address: string, call: Call): (r: seq<ClusterNode>)
    requires call != NoCall ==> FirstAt(nodes, address) < |nodes|
  {
    match call
    case NoCall => nodes
    case SetState(status) => WithStatus(nodes, nodes[FirstAt(nodes, address)].nodeId, status)
    case Remove => WithoutNode(nodes, nodes[FirstAt(nodes, address)].nodeId)
  }

  /** On a listing with distinct addresses and ids the call does to the view what it says. */
  lemma ListAfterView(nodes: seq<ClusterNode>, address: string, call: Call)
    requires Distinct(nodes) && (call != NoCall ==> FirstAt(nodes, address) < |nodes|)
    ensures Distinct(ListAfter(nodes, address, call))
    ensures View(ListAfter(nodes, address, call)) == AfterCall(View(nodes), address, call)
  {
    match call
    case NoCall =>
    case SetState(status) => ViewOfUpdate(nodes, FirstAt(nodes, address), status);
    case Remove => ViewOfRemoval(nodes, FirstAt(nodes, address));
  }

  method ComputeOffloadStep(api: ClusterApi, address: string, replicas: int, desired: int, policy: Policy,
                            current: Option<Progress>, now: int, answers: Answers) returns (o: Outcome)
    modifies api
    ensures o
            == OffloadStep(TopOf(View(old(api.nodes)), address), address, replicas, desired, policy, current, now,
                answers)
    ensures o.call != NoCall ==> FirstAt(old(api.nodes), address) < |old(api.nodes)|
    ensures api.nodes == ListAfter(old(api.nodes), address, o.call)
  {
    if replicas <= desired || !policy.offload { return Outcome(desired, false, None, NoCall, false); }
    if !answers.listOk { return Outcome(replicas, true, current, NoCall, true); }
    var found := FindClusterNodeByAddress(api.nodes, address);
    if found.None? { return Outcome(replicas - 1, true, None, NoCall, false); }
    var node := api.nodes[found.value];
    var started := StartedAt(current, address, now);
    if now - started > policy.timeout {
      if policy.force {
        if !answers.callOk { return Outcome(replicas, true, Some(Progress(address, "Removing", Some(started))), NoCall,
            true); }
        api.DeleteClusterNode(node.nodeId);
        return Outcome(replicas - 1, true, None, Remove, false);
      }
      return Outcome(replicas, true, Some(Progress(address, StatusText(node.status), Some(started))), NoCall, true);
    }
    if node.status == Connected || node.status == Connecting {
      if !answers.callOk { return Outcome(replicas, true, current, NoCall, true); }
      api.SetClusterNodeState(node.nodeId, Disconnecting);
      return Outcome(replicas, true, Some(Progress(address, "Disconnecting", Some(started))), SetState(Disconnecting),
          false);
    } else if node.status == Disconnected {
      if !answers.callOk { return Outcome(replicas, true, current, NoCall, true); }
      api.SetClusterNodeState(node.nodeId, Offloading);
      return Outcome(replicas, true, Some(Progress(address, "Offloading", Some(started))), SetState(Offloading), false);
    } else if node.status == Offloaded {
      if !answers.callOk { return Outcome(replicas, true, current, NoCall, true); }
      api.DeleteClusterNode(node.nodeId);
      return Outcome(replicas - 1, true, Some(Progress(address, "Removing", Some(started))), Remove, false);
    }
    var phase := if node.status == Disconnecting then "Disconnecting" else "Offloading";
    return Outcome(replicas, true, Some(Progress(address, phase, Some(started))), NoCall, false);
  }

  /** One pool: the primary NiFiCluster or a NiFiNodeGroup, with its StatefulSet. */
  class PoolReconciler {
    const name: string
    const service: string
    const namespace: string
    const primary: bool
    var specReplicas: int
    var policy: Policy
    var replicas: int
    var progress: Option<Progress>

    constructor (name: string, service: string, namespace: string, pool: Pool)
      ensures State() == pool && this.name == name && this.service == service && this.namespace == namespace
    {
      this.name, this.service, this.namespace, primary := name, service, namespace, pool.primary;
      specReplicas, policy, replicas, progress := pool.specReplicas, pool.policy, pool.replicas, pool.progress;
    }

    function State(): (p: Pool)
      reads this
    {
      Pool(primary, specReplicas, policy, replicas, progress)
    }

    /** setScaleDownStatus and clearScaleDownStatus: write only a changed address or phase. */
    method StoreProgress(desired: Option<Progress>, written: bool) returns (ok: bool)
      modifies this`progress
      ensures progress == if !SameProgress(old(progress), desired) && written then desired else old(progress)
      ensures ok == (SameProgress(old(progress), desired) || written)
    {
      if SameProgress(progress, desired) { return true; }
      if written { progress := desired; }
      return written;
    }

    /** Offloading: one step for the node listed first at the top address, then the status, then the
        replica count. */
    method Offload(api: ClusterApi, now: int, answers: Answers) returns (call: Call)
      requires replicas > 0
      modifies this`progress, this`replicas, api
      ensures var p, address := old(State()), PoolNodeAddress(name, service, namespace, old(replicas) - 1);
              var o :=
                  OffloadStep(TopOf(View(old(api.nodes)), address), address, p.replicas, Desired(p), p.policy,
                      p.progress, now, answers);
              && State() == Persist(p, o, answers) && call == o.call
              && (call != NoCall ==> FirstAt(old(api.nodes), address) < |old(api.nodes)|)
              && api.nodes == ListAfter(old(api.nodes), address, call)
    {
      var address := PoolNodeAddress(name, service, namespace, replicas - 1);
      var o := ComputeOffloadStep(api, address, replicas, Desired(State()), policy, progress, now, answers);
      var stored := StoreProgress(o.status, answers.statusWritten);
      if !o.failed && stored && answers.replicasWritten { replicas := o.replicas; }
      call := o.call;
    }

    /** Nothing to offload: the progress is cleared and the StatefulSet gets its size. */
    method SetSize(answers: Answers)
      modifies this`progress, this`replicas
      ensures State() == Persist(old(State()), Outcome(Desired(old(State())), false, None, NoCall, false), answers)
    {
      var desired := Desired(State());
      var cleared := StoreProgress(None, answers.statusWritten);
      if cleared && answers.replicasWritten { replicas := desired; }
    }

    /** One reconcile does to this pool what the protocol step says and calls NiFi for the first node
        listed at the top address; with distinct addresses the view changes as the step says too. */
    method Reconcile(api: ClusterApi, now: int, answers: Answers, ghost w: World) returns (call: Call)
      requires replicas >= 0
      requires w.service == service && w.namespace == namespace && w.now == now
      requires name in w.pools && w.pools[name] == State() && w.nodes == View(api.nodes)
      modifies this`progress, this`replicas, api
      ensures (State(), call) == PoolStep(w, name, answers)
      ensures KeepsSpec(w.pools[name], State(), call, answers)
      ensures call == NoCall ==> api.nodes == old(api.nodes)
      ensures call != NoCall ==> && FirstAt(old(api.nodes), TopAddress(w, name)) < |old(api.nodes)|
                                 && api.nodes == ListAfter(old(api.nodes), TopAddress(w, name), call)
    {
      StepKeepsSpec(w, name, answers);
      if NothingToOffload(State()) {
        SetSize(answers);
        return NoCall;
      }
      if primary && !answers.clientOk { return NoCall; }
      OffloadIsPoolStep(w, name, answers);
      call := Offload(api, now, answers);
    }
  }

  lemma OffloadIsPoolStep(w: World, n: string, answers: Answers)
    requires n in w.pools && w.pools[n].replicas >= 0 && !NothingToOffload(w.pools[n])
             && (w.pools[n].primary ==> answers.clientOk)
    ensures w.pools[n].replicas > 0
    ensures var p, address := w.pools[n], PoolNodeAddress(n, w.service, w.namespace, w.pools[n].replicas - 1);
            var o :=
                OffloadStep(TopOf(w.nodes, address), address, p.replicas, Desired(p), p.policy, p.progress, w.now,
                    answers);
            PoolStep(w, n, answers) == (Persist(p, o, answers), o.call)
  {
  }

  lemma CallChangesTop(w: World, n: string, answers: Answers)
    requires n in w.pools && w.pools[n].replicas >= 0
    ensures var call := PoolStep(w, n, answers).1;
            && (call == NoCall ==> ScaleDown.Reconcile(w, n, answers).nodes == w.nodes)
            && (call != NoCall ==> && w.pools[n].replicas > 0 && TopAddress(w, n) in w.nodes
                                   && ScaleDown.Reconcile(w, n, answers).nodes
                                   == AfterCall(w.nodes, TopAddress(w, n), call))
  {
  }

  /** With distinct addresses and ids, the list after a reconcile shows what the protocol says. */
  lemma ReconciledView(w: World, n: string, answers: Answers, nodes: seq<ClusterNode>)
    requires n in w.pools && w.pools[n].replicas >= 0 && w.nodes == View(nodes) && Distinct(nodes)
    ensures ShowsStep(w, n, answers, nodes, PoolStep(w, n, answers).1)
  {
    var call := PoolStep(w, n, answers).1;
    CallChangesTop(w, n, answers);
    if call != NoCall {
      ViewIsFirst(nodes, TopAddress(w, n));
      ListAfterView(nodes, TopAddress(w, n), call);
    }
  }

  ghost predicate ShowsStep(w: World, n: string, answers: Answers, nodes: seq<ClusterNode>, call: Call)
    requires n in w.pools && w.pools[n].replicas >= 0
  {
    && (call == NoCall ==> View(nodes) == ScaleDown.Reconcile(w, n, answers).nodes)
    && (call != NoCall ==> && w.pools[n].replicas > 0 && FirstAt(nodes, TopAddress(w, n)) < |nodes|
                           && Distinct(ListAfter(nodes, TopAddress(w, n), call))
                           && View(ListAfter(nodes, TopAddress(w, n), call))
                           == ScaleDown.Reconcile(w, n, answers).nodes)
  }
}
