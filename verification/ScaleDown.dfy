/** Graceful scale-down (internal/controller/managed_cluster_scaledown.go and
    nifinodegroup_scaledown.go): the primary pool and any number of node-group pools drain their
    highest-ordinal nodes out of one shared NiFi cluster. */
module ScaleDown {
  import opened Text

  // --- node addresses --------------------------------------------------------------------------

  function PoolNodeAddress(statefulSet: string, service: string, namespace: string, ordinal: nat): (r: string) {
    statefulSet + "-" + Decimal(ordinal) + "." + service + "." + namespace + ".svc"
  }

  /** The last dash of such a string separates the two parts. */
  lemma SplitAtLastDash(a: string, digits: string, b: string, digits': string)
    requires a + "-" + digits == b + "-" + digits'
    requires (forall i :: 0 <= i < |digits| ==> digits[i] != '-')
             && (forall i :: 0 <= i < |digits'| ==> digits'[i] != '-')
    ensures a == b && digits == digits'
  {
    var x := a + "-" + digits;
    assert x[|a|] == '-' && x[|b|] == '-';
    assert forall i :: |a| < i < |x| ==> x[i] == digits[i - |a| - 1];
    assert forall i :: |b| < i < |x| ==> x[i] == digits'[i - |b| - 1];
    assert |a| == |b|;
    assert a == x[..|a|] && b == x[..|b|] && digits == x[|a| + 1..] && digits' == x[|b| + 1..];
  }

  lemma DecimalHasNoDash(n: nat)
    ensures forall i :: 0 <= i < |Decimal(n)| ==> Decimal(n)[i] != '-'
  {
    forall i | 0 <= i < |Decimal(n)| ensures Decimal(n)[i] != '-' {
      assert Decimal(n)[i] in DIGITS;
    }
  }

  lemma SameTail(x: string, y: string, tail: string)
    requires x + tail == y + tail
    ensures x == y
  {
    assert x == (x + tail)[..|x|] && y == (y + tail)[..|y|];
  }

  /** An address names one pool and one ordinal, whatever characters the names contain. */
  lemma AddressInjective(a: string, i: nat, b: string, j: nat, service: string, namespace: string)
    requires PoolNodeAddress(a, service, namespace, i) == PoolNodeAddress(b, service, namespace, j)
    ensures a == b && i == j
  {
    var tail := "." + service + "." + namespace + ".svc";
    assert PoolNodeAddress(a, service, namespace, i) == a + "-" + Decimal(i) + tail;
    assert PoolNodeAddress(b, service, namespace, j) == b + "-" + Decimal(j) + tail;
    SameTail(a + "-" + Decimal(i), b + "-" + Decimal(j), tail);
    DecimalHasNoDash(i);
    DecimalHasNoDash(j);
    SplitAtLastDash(a, Decimal(i), b, Decimal(j));
    DecimalRoundTrip(i);
    DecimalRoundTrip(j);
  }

  // --- state -----------------------------------------------------------------------------------

  datatype NodeStatus =
    | Connected | Connecting | Disconnecting | Disconnected | Offloading | Offloaded | Unknown(text: string)

  function StatusText(s: NodeStatus): (r: string) {
    match s
    case Connected => "CONNECTED"
    case Connecting => "CONNECTING"
    case Disconnecting => "DISCONNECTING"
    case Disconnected => "DISCONNECTED"
    case Offloading => "OFFLOADING"
    case Offloaded => "OFFLOADED"
    case Unknown(text) => text
  }

  /** The persisted NiFiClusterScaleDownStatus. Times are seconds. */
  datatype Progress = Progress(address: string, phase: string, startedAt: Option<int>)

  datatype PolicySpec = PolicySpec(offloadData: Option<bool>, timeoutSeconds: int, forceOnTimeout: bool)

  datatype Policy = Policy(offload: bool, timeout: int, force: bool)

  function ResolvePolicy(spec: Option<PolicySpec>): (r: Policy)
    ensures !r.offload <==> spec.Some? && spec.value.offloadData == Some(false)
    ensures r.force <==> spec.Some? && spec.value.forceOnTimeout
    ensures r.timeout > 0 && (spec.Some? && spec.value.timeoutSeconds > 0 ==> r.timeout == spec.value.timeoutSeconds)
    ensures spec.None? || spec.value.timeoutSeconds <= 0 ==> r.timeout == 600
  {
    match spec
    case None => Policy(true, 600, false)
    case Some(s) =>
      Policy(s.offloadData.None? || s.offloadData.value,
             if s.timeoutSeconds > 0 then s.timeoutSeconds else 600, s.forceOnTimeout)
  }

  /** A group without a policy of its own uses the cluster's; its own policy wins as a whole, even
      where it leaves a setting at its default. */
  function GroupPolicy(cluster: Option<PolicySpec>, group: Option<PolicySpec>): (r: Policy)
    ensures group.Some? ==> r == ResolvePolicy(group)
    ensures group.None? ==> r == ResolvePolicy(cluster)
  {
    ResolvePolicy(if group.Some? then group else cluster)
  }

  datatype Pool = Pool(primary: bool, specReplicas: int, policy: Policy, replicas: int, progress: Option<Progress>)

  /** The primary pool never scales below one node; a group may go to zero. */
  function Desired(p: Pool): (r: int)
    ensures r >= 0 && (p.primary ==> r >= 1)
  {
    if p.specReplicas > 0 then p.specReplicas else if p.primary then 1 else 0
  }

  type FileId = nat

  /** The shared NiFi cluster and the pools: node statuses by address, where every queued file
      lives, the files delivered so far, and the pools by StatefulSet name. */
  datatype World = World(
    service: string,
    namespace: string,
    nodes: map<string, NodeStatus>,
    files: map<FileId, string>,
    delivered: set<FileId>,
    pools: map<string, Pool>,
    now: int)

  function Address(w: World, name: string, ordinal: nat): (r: string) {
    PoolNodeAddress(name, w.service, w.namespace, ordinal)
  }

  function TopAddress(w: World, name: string): (r: string)
    requires name in w.pools && w.pools[name].replicas > 0
  {
    Address(w, name, w.pools[name].replicas - 1)
  }

  // --- one offload step ------------------------------------------------------------------------

  datatype Call = NoCall | SetState(status: NodeStatus) | Remove

  /** What the outside calls of one reconcile answer. */
  datatype Answers = Answers(clientOk: bool, listOk: bool, callOk: bool, statusWritten: bool, replicasWritten: bool)

  const ALL_OK := Answers(true, true, true, true, true)

  /** The outcome of computeOffloadStep: `call` is what was done to the top node. */
  datatype Outcome = Outcome(replicas: int, active: bool, status: Option<Progress>, call: Call, failed: bool)

  function StartedAt(current: Option<Progress>, address: string, now: int): (r: int) {
    if current.Some? && current.value.address == address && current.value.startedAt.Some?
    then current.value.startedAt.value else now
  }

  function OffloadStep(top: Option<NodeStatus>, address: string, replicas: int, desired: int, policy: Policy,
                       current: Option<Progress>, now: int, answers: Answers): (r: Outcome)
  {
    if replicas <= desired || !policy.offload then Outcome(desired, false, None, NoCall, false)
    else if !answers.listOk then Outcome(replicas, true, current, NoCall, true)
    else if top.None? then Outcome(replicas - 1, true, None, NoCall, false)
    else
      var started := StartedAt(current, address, now);
      var status := (phase: string) => Some(Progress(address, phase, Some(started)));
      if now - started > policy.timeout then
        if !policy.force then Outcome(replicas, true, status(StatusText(top.value)), NoCall, true)
        else if !answers.callOk then Outcome(replicas, true, status("Removing"), NoCall, true)
        else Outcome(replicas - 1, true, None, Remove, false)
      else match top.value
        case Connected => Request(replicas, Disconnecting, status("Disconnecting"), current, answers)
        case Connecting => Request(replicas, Disconnecting, status("Disconnecting"), current, answers)
        case Disconnected => Request(replicas, Offloading, status("Offloading"), current, answers)
        case Offloaded =>
          if !answers.callOk then Outcome(replicas, true, current, NoCall, true)
          else Outcome(replicas - 1, true, status("Removing"), Remove, false)
        case Disconnecting => Outcome(replicas, true, status("Disconnecting"), NoCall, false)
        case _ => Outcome(replicas, true, status("Offloading"), NoCall, false)
  }

  function Request(replicas: int, next: NodeStatus, status: Option<Progress>, current: Option<Progress>,
      answers: Answers): (r: Outcome) {
    if !answers.callOk then Outcome(replicas, true, current, NoCall, true)
    else Outcome(replicas, true, status, SetState(next), false)
  }

  predicate SameProgress(a: Option<Progress>, b: Option<Progress>) {
    if a.None? || b.None? then a.None? && b.None?
    else a.value.address == b.value.address && a.value.phase == b.value.phase
  }

  // --- one reconcile of one pool ---------------------------------------------------------------

  predicate NothingToOffload(p: Pool) {
    p.replicas <= Desired(p) || (p.primary && (!p.policy.offload || p.replicas <= 1))
  }

  /** Persisting the new status and then the replica count. An error on the way leaves the
      StatefulSet alone. */
  function Persist(p: Pool, o: Outcome, answers: Answers): (r: Pool) {
    var changes := !SameProgress(p.progress, o.status);
    var stored := if changes && answers.statusWritten then o.status else p.progress;
    var failed := o.failed || (changes && !answers.statusWritten);
    p.(progress := stored, replicas := if failed || !answers.replicasWritten then p.replicas else o.replicas)
  }

  function PoolStep(w: World, name: string, answers: Answers): (r: (Pool, Call))
    requires name in w.pools && w.pools[name].replicas >= 0
  {
    var p := w.pools[name];
    if NothingToOffload(p) then (Persist(p, Outcome(Desired(p), false, None, NoCall, false), answers), NoCall)
    else if p.primary && !answers.clientOk then (p, NoCall)
    else
      var address := Address(w, name, p.replicas - 1);
      var top := if address in w.nodes then Some(w.nodes[address]) else None;
      var o := OffloadStep(top, address, p.replicas, Desired(p), p.policy, p.progress, w.now, answers);
      (Persist(p, o, answers), o.call)
  }

  /** Removing a node from the cluster takes the files still queued on it. */
  function Applied(w: World, address: string, call: Call): (r: World) {
    match call
    case NoCall => w
    case SetState(status) => w.(nodes := w.nodes[address := status])
    case Remove =>
      w.(nodes := w.nodes - {address}, files := map f | f in w.files && w.files[f] != address :: w.files[f])
  }

  function Reconcile(w: World, name: string, answers: Answers): (r: World)
    requires name in w.pools && w.pools[name].replicas >= 0
  {
    var (p, call) := PoolStep(w, name, answers);
    var address := if w.pools[name].replicas > 0 then TopAddress(w, name) else "";
    Applied(w, address, call).(pools := w.pools[name := p])
  }

  // --- the environment -------------------------------------------------------------------------

  ghost predicate Located(w: World) {
    forall f :: f in w.files ==> w.files[f] in w.nodes
  }

  /** An OFFLOADED node has handed all its queued files to other nodes. */
  ghost predicate OffloadedIsEmpty(w: World) {
    forall f :: f in w.files && w.files[f] in w.nodes ==> w.nodes[w.files[f]] != Offloaded
  }

  ghost predicate Graceful(w: World) {
    forall n :: n in w.pools ==> w.pools[n].policy.offload && !w.pools[n].policy.force
  }

  ghost predicate Safe(w: World) {
    Located(w) && OffloadedIsEmpty(w) && (forall n :: n in w.pools ==> w.pools[n].replicas >= 0)
  }

  /** Anything NiFi, the pods and the users may do between reconciles. Nodes may join and change
      status, files may be produced, moved between nodes and delivered, the clock may advance, and
      the spec and the persisted scale-down status of any pool may change arbitrarily, and node
      groups may be created and deleted. Nodes do
      not leave the cluster on their own, and a node is OFFLOADED only when it is empty. */
  ghost predicate EnvStep(w: World, w': World) {
    && w'.service == w.service && w'.namespace == w.namespace && w'.now >= w.now
    && w.nodes.Keys <= w'.nodes.Keys
    && w.files.Keys <= w'.files.Keys + w'.delivered && w.delivered <= w'.delivered
    && Located(w') && OffloadedIsEmpty(w')
    && (forall n :: n in w'.pools ==> w'.pools[n].replicas >= 0)
    && (forall n :: n in w.pools && n in w'.pools ==>
          w'.pools[n].replicas == w.pools[n].replicas && w'.pools[n].primary == w.pools[n].primary)
    && (Graceful(w) ==> Graceful(w'))
  }

  ghost predicate ReconcileStep(w: World, w': World) {
    exists n, answers :: n in w.pools && w.pools[n].replicas >= 0 && w' == Reconcile(w, n, answers)
  }

  ghost predicate Next(w: World, w': World) {
    EnvStep(w, w') || ReconcileStep(w, w')
  }

  ghost predicate IsRun(run: seq<World>) {
    |run| > 0 && Safe(run[0]) && Graceful(run[0]) && forall i :: 0 <= i < |run| - 1 ==> Next(run[i], run[i + 1])
  }

  // --- data safety -----------------------------------------------------------------------------

  ghost function Queued(w: World): (r: set<FileId>) { w.files.Keys }

  /** Pods that leave the StatefulSet of a pool in a step belong to nodes that have left NiFi. */
  ghost predicate DropsOnlyGoneNodes(w: World, w': World) {
    forall n, i: nat :: n in w.pools && n in w'.pools && w'.pools[n].replicas <= i < w.pools[n].replicas
      ==> Address(w, n, i) !in w'.nodes
  }

  ghost predicate KeepsFiles(w: World, w': World) {
    Queued(w) <= Queued(w') + w'.delivered && w.delivered <= w'.delivered
  }

  lemma PersistReplicas(p: Pool, o: Outcome, answers: Answers)
    ensures Persist(p, o, answers).replicas == p.replicas
            || (!o.failed && Persist(p, o, answers).replicas == o.replicas)
    ensures Persist(p, o, answers).(replicas := p.replicas, progress := p.progress) == p
  {
  }

  /** A graceful step removes the node only when it is OFFLOADED and lowers the count only when
      the node is absent or just removed. */
  lemma OffloadStepSafe(top: Option<NodeStatus>, address: string, replicas: int, desired: int, policy: Policy,
                        current: Option<Progress>, now: int, answers: Answers)
    requires policy.offload && !policy.force
    ensures var o := OffloadStep(top, address, replicas, desired, policy, current, now, answers);
            && (o.call == Remove ==> top == Some(Offloaded))
            && (o.call.SetState? ==> top.Some? && o.call.status != Offloaded)
            && (replicas > desired ==>
              o.replicas == replicas || (o.replicas == replicas - 1 && (top.None? || o.call == Remove)))
  {
  }

  ghost predicate GracefulResult(w: World, n: string, q: Pool, call: Call)
    requires n in w.pools && w.pools[n].replicas >= 0
  {
    var p := w.pools[n];
    && q.(replicas := p.replicas, progress := p.progress) == p
    && q.replicas >= 0
    && (call == Remove ==> p.replicas > 0 && TopAddress(w, n) in w.nodes && w.nodes[TopAddress(w, n)] == Offloaded)
    && (call.SetState? ==> p.replicas > 0 && TopAddress(w, n) in w.nodes && call.status != Offloaded)
    && (q.replicas >= p.replicas || (q.replicas == p.replicas - 1 && (TopAddress(w, n) !in w.nodes || call == Remove)))
    && (TopAddressGone(w, n) ==> !call.SetState?)
  }

  ghost predicate TopAddressGone(w: World, n: string)
    requires n in w.pools
  {
    w.pools[n].replicas > 0 && TopAddress(w, n) !in w.nodes
  }

  lemma PoolStepGraceful(w: World, n: string, answers: Answers)
    requires n in w.pools && w.pools[n].replicas >= 0 && w.pools[n].policy.offload && !w.pools[n].policy.force
    ensures GracefulResult(w, n, PoolStep(w, n, answers).0, PoolStep(w, n, answers).1)
  {
    var p := w.pools[n];
    if NothingToOffload(p) {
      PersistReplicas(p, Outcome(Desired(p), false, None, NoCall, false), answers);
    } else {
      var address := TopAddress(w, n);
      var top := if address in w.nodes then Some(w.nodes[address]) else None;
      OffloadStepSafe(top, address, p.replicas, Desired(p), p.policy, p.progress, w.now, answers);
      PersistReplicas(p, OffloadStep(top, address, p.replicas, Desired(p), p.policy, p.progress, w.now, answers),
          answers);
    }
  }

  ghost predicate SafeStep(w: World, w': World) {
    && Safe(w') && w'.files == w.files && w'.delivered == w.delivered && DropsOnlyGoneNodes(w, w')
    && (forall a :: a in w.nodes && a !in w'.nodes ==> w.nodes[a] == Offloaded)
    && (Graceful(w) ==> Graceful(w'))
  }

  lemma GracefulResultSafe(w: World, n: string, q: Pool, call: Call)
    requires n in w.pools && Safe(w) && GracefulResult(w, n, q, call)
    ensures SafeStep(w,
        Applied(w, if w.pools[n].replicas > 0 then TopAddress(w, n) else "", call).(pools := w.pools[n := q]))
  {
    var address := if w.pools[n].replicas > 0 then TopAddress(w, n) else "";
    var w' := Applied(w, address, call).(pools := w.pools[n := q]);
    assert w'.files == w.files;
    forall m, i: nat | m in w.pools && w'.pools[m].replicas <= i < w.pools[m].replicas
      ensures Address(w, m, i) !in w'.nodes
    {
      assert m == n && i == w.pools[n].replicas - 1;
    }
  }

  /** With offload on and OnTimeout Fail, a reconcile keeps every queued file, removes a node only
      when it is OFFLOADED, and lets a pod go only when its node is gone, whatever the outside
      calls answer and whatever scale-down status was persisted. */
  lemma ReconcileSafe(w: World, n: string, answers: Answers)
    requires n in w.pools && Safe(w) && w.pools[n].policy.offload && !w.pools[n].policy.force
    ensures SafeStep(w, Reconcile(w, n, answers))
  {
    var (q, call) := PoolStep(w, n, answers);
    PoolStepGraceful(w, n, answers);
    GracefulResultSafe(w, n, q, call);
  }

  lemma NextSafe(w: World, w': World)
    requires Safe(w) && Graceful(w) && Next(w, w')
    ensures Safe(w') && Graceful(w') && KeepsFiles(w, w') && DropsOnlyGoneNodes(w, w')
  {
    if !EnvStep(w, w') {
      var n, answers :| n in w.pools && w.pools[n].replicas >= 0 && w' == Reconcile(w, n, answers);
      ReconcileSafe(w, n, answers);
    }
  }

  lemma {:induction false} RunSafe(run: seq<World>, i: nat)
    requires IsRun(run) && i < |run|
    ensures Safe(run[i]) && Graceful(run[i])
  {
    if i > 0 {
      RunSafe(run, i - 1);
      assert Next(run[i - 1], run[i]);
      NextSafe(run[i - 1], run[i]);
    }
  }

  /** Over every interleaving of reconciles of all pools with the environment, every file that was
      ever queued is still queued on a node of the cluster or has been delivered. */
  lemma {:induction false} RunKeepsFiles(run: seq<World>, i: nat, j: nat)
    requires IsRun(run) && i <= j < |run|
    ensures KeepsFiles(run[i], run[j])
    ensures Located(run[j])
    decreases j
  {
    RunSafe(run, j);
    if i < j {
      RunKeepsFiles(run, i, j - 1);
      RunSafe(run, j - 1);
      assert Next(run[j - 1], run[j]);
      NextSafe(run[j - 1], run[j]);
    }
  }

  /** ... and at every step of every run, pods leave only after their nodes have. */
  lemma RunDropsOnlyGoneNodes(run: seq<World>, i: nat)
    requires IsRun(run) && i + 1 < |run|
    ensures DropsOnlyGoneNodes(run[i], run[i + 1])
  {
    RunSafe(run, i);
    assert Next(run[i], run[i + 1]);
    NextSafe(run[i], run[i + 1]);
  }

  ghost predicate TimedOut(w: World, n: string)
    requires n in w.pools && w.pools[n].replicas > 0
  {
    w.now - StartedAt(w.pools[n].progress, TopAddress(w, n), w.now) > w.pools[n].policy.timeout
  }

  /** A reconcile attempts a forced removal of a node that is still there. */
  ghost predicate Forces(w: World, n: string, answers: Answers)
    requires n in w.pools && w.pools[n].replicas >= 0
  {
    var p := w.pools[n];
    !NothingToOffload(p) && p.policy.offload && (!p.primary || answers.clientOk) && answers.listOk && answers.callOk
    && TopAddress(w, n) in w.nodes && TimedOut(w, n) && p.policy.force
  }

  /** Outside OnTimeout Fail the guarantee is lost exactly when a timed-out node that still holds
      files is force-removed. */
  lemma FilesLostExactlyByForce(w: World, n: string, answers: Answers)
    requires n in w.pools && Safe(w)
    ensures Reconcile(w, n, answers).files != w.files
        <==> Forces(w, n, answers) && exists f :: f in w.files && w.files[f] == TopAddress(w, n)
  {
    var p := w.pools[n];
    var w' := Reconcile(w, n, answers);
    var (q, call) := PoolStep(w, n, answers);
    if p.replicas > 0 {
      var address := TopAddress(w, n);
      if call == Remove && !Forces(w, n, answers) {
        assert w.nodes[address] == Offloaded;
      }
      if f :| f in w.files && w.files[f] == address && call == Remove { assert f !in w'.files; }
      if call != Remove || !exists f :: f in w.files && w.files[f] == address {
        assert w'.files == w.files;
      }
    }
  }

  /** The forced removal does happen: a node stuck OFFLOADING past the timeout takes its file
      with it. */
  lemma ForceLosesAFile()
    ensures exists w, n ::
              Safe(w) && n in w.pools && 7 in w.files && 7 !in w.delivered && 7 !in Reconcile(w, n, ALL_OK).files
  {
    var address := PoolNodeAddress("a", "s", "ns", 1);
    var pool := Pool(true, 1, Policy(true, 600, true), 2, Some(Progress(address, "Offloading", Some(0))));
    var w := World("s", "ns", map[address := Offloading], map[7 := address], {}, map["a" := pool], 1000);
    assert TopAddress(w, "a") == address;
    assert 7 in w.files && w.files[7] == address;
    FilesLostExactlyByForce(w, "a", ALL_OK);
    assert Forces(w, "a", ALL_OK);
    assert PoolStep(w, "a", ALL_OK).1 == Remove;
  }

  // --- pools do not interfere ------------------------------------------------------------------

  /** A reconcile of one pool leaves every node of every other pool, and every lower-ordinal node
      of its own pool, exactly as it was. */
  lemma PoolsDoNotInterfere(w: World, n: string, answers: Answers, other: string, i: nat)
    requires n in w.pools && w.pools[n].replicas >= 0
    requires other != n || i != w.pools[n].replicas - 1
    ensures var w', a := Reconcile(w, n, answers), Address(w, other, i);
            && (a in w'.nodes <==> a in w.nodes)
            && (a in w.nodes ==> w'.nodes[a] == w.nodes[a])
            && (other != n && other in w.pools ==> w'.pools[other] == w.pools[other])
  {
    if w.pools[n].replicas > 0 && Address(w, other, i) == TopAddress(w, n) {
      AddressInjective(other, i, n, w.pools[n].replicas - 1, w.service, w.namespace);
    }
  }

  /** The primary pool's first node is never disconnected, offloaded or removed by any pool. */
  lemma PrimaryNodeZeroUntouched(w: World, n: string, answers: Answers, primary: string)
    requires n in w.pools && w.pools[n].replicas >= 0
    requires primary in w.pools && w.pools[primary].primary
    ensures var w', a := Reconcile(w, n, answers), Address(w, primary, 0);
            && (a in w'.nodes <==> a in w.nodes)
            && (a in w.nodes ==> w'.nodes[a] == w.nodes[a])
  {
    if n == primary && w.pools[n].replicas == 1 {
      assert NothingToOffload(w.pools[n]);
    } else {
      PoolsDoNotInterfere(w, n, answers, primary, 0);
    }
  }

  // --- pace, timers and progress ---------------------------------------------------------------

  /** While offloading, a step moves the replica count by at most one and never past desired. */
  lemma StepsDownByOne(w: World, n: string, answers: Answers)
    requires n in w.pools && w.pools[n].replicas > Desired(w.pools[n]) && w.pools[n].policy.offload
    ensures var r, r' := w.pools[n].replicas, Reconcile(w, n, answers).pools[n].replicas;
            (r' == r || r' == r - 1) && r' >= Desired(w.pools[n])
  {
  }

  /** A persisted start time stays until the address changes or the status is cleared. */
  lemma StartTimeIsKept(w: World, n: string, answers: Answers)
    requires n in w.pools && w.pools[n].replicas >= 0
    requires w.pools[n].progress.Some? && w.pools[n].progress.value.startedAt.Some?
    ensures var before, after := w.pools[n].progress, Reconcile(w, n, answers).pools[n].progress;
            after.None? || after.value.address != before.value.address
            || after.value.startedAt == before.value.startedAt
  {
    var p := w.pools[n];
    var q := PoolStep(w, n, answers).0;
    assert Reconcile(w, n, answers).pools[n] == q;
    if !NothingToOffload(p) && (p.primary ==> answers.clientOk) {
      var address := Address(w, n, p.replicas - 1);
      var top := if address in w.nodes then Some(w.nodes[address]) else None;
      var o := OffloadStep(top, address, p.replicas, Desired(p), p.policy, p.progress, w.now, answers);
      StatusCarriesStart(top, address, p.replicas, Desired(p), p.policy, p.progress, w.now, answers);
      assert q == Persist(p, o, answers);
    }
  }

  lemma StatusCarriesStart(top: Option<NodeStatus>, address: string, replicas: int, desired: int, policy: Policy,
                           current: Option<Progress>, now: int, answers: Answers)
    ensures var o := OffloadStep(top, address, replicas, desired, policy, current, now, answers);
            || o.status.None? || o.status == current
            || (o.status.value.address == address && o.status.value.startedAt == Some(StartedAt(current, address, now)))
  {
  }

  /** Under OnTimeout Fail an expired timer holds the pool where it is, whatever the state of the
      node, and the timer stays expired. */
  lemma ExpiryHoldsThePool(w: World, n: string, answers: Answers)
    requires n in w.pools && w.pools[n].replicas > Desired(w.pools[n]) && w.pools[n].policy.offload
             && !w.pools[n].policy.force
    requires TopAddress(w, n) in w.nodes && TimedOut(w, n)
    ensures var w' := Reconcile(w, n, answers);
            w'.pools[n].replicas == w.pools[n].replicas && w'.nodes == w.nodes && TimedOut(w', n)
  {
    var (q, call) := PoolStep(w, n, answers);
    assert call == NoCall && q.replicas == w.pools[n].replicas;
  }

  /** An OFFLOADED node is to be removed next. Under OnTimeout Fail it is, when the calls succeed,
      if and only if its timer has not expired: the timeout test comes before the look at the
      node's state. */
  lemma OffloadedNodeGoesIff(w: World, n: string)
    requires n in w.pools && w.pools[n].replicas > Desired(w.pools[n]) && w.pools[n].policy.offload
             && !w.pools[n].policy.force
    requires TopAddress(w, n) in w.nodes && w.nodes[TopAddress(w, n)] == Offloaded
    ensures var w' := Reconcile(w, n, ALL_OK);
            && (TopAddress(w, n) !in w'.nodes <==> !TimedOut(w, n))
            && (w'.pools[n].replicas == w.pools[n].replicas - 1 <==> !TimedOut(w, n))
  {
    var p, address := w.pools[n], TopAddress(w, n);
    var o := OffloadStep(Some(Offloaded), address, p.replicas, Desired(p), p.policy, p.progress, w.now, ALL_OK);
    assert PoolStep(w, n, ALL_OK) == (Persist(p, o, ALL_OK), o.call);
    PersistReplicas(p, o, ALL_OK);
  }

  /** One node that is held although it is empty: it became OFFLOADED a second too late. */
  lemma OffloadedNodeIsHeld() returns (w: World, n: string)
    ensures Safe(w) && Graceful(w) && n in w.pools && w.pools[n].replicas > Desired(w.pools[n])
    ensures TopAddress(w, n) in w.nodes && w.nodes[TopAddress(w, n)] == Offloaded
    ensures Reconcile(w, n, ALL_OK).nodes == w.nodes && Reconcile(w, n, ALL_OK).pools[n].replicas == w.pools[n].replicas
  {
    n := "a";
    var address := PoolNodeAddress("a", "s", "ns", 1);
    var pool := Pool(true, 1, Policy(true, 600, false), 2, Some(Progress(address, "Offloading", Some(0))));
    w := World("s", "ns", map[address := Offloaded], map[], {}, map["a" := pool], 601);
    assert TopAddress(w, "a") == address;
    ExpiryHoldsThePool(w, "a", ALL_OK);
  }

  function StatusRank(s: NodeStatus): (r: nat)
    ensures r <= 6
  {
    match s
    case Offloaded => 1
    case Offloading => 2
    case Disconnected => 3
    case Disconnecting => 4
    case Connected => 5
    case Connecting => 5
    case Unknown(_) => 6
  }

  ghost function TopRank(w: World, n: string): (r: nat)
    requires n in w.pools && w.pools[n].replicas >= 0
    ensures r <= 6
  {
    if w.pools[n].replicas > 0 && TopAddress(w, n) in w.nodes then StatusRank(w.nodes[TopAddress(w, n)]) else 0
  }

  ghost predicate Scaling(w: World, n: string) {
    n in w.pools && w.pools[n].replicas > Desired(w.pools[n]) && w.pools[n].policy.offload
  }

  /** Nodes still to remove first, then how far the current one has come. */
  ghost function Remaining(w: World, n: string): (r: int)
    requires n in w.pools && w.pools[n].replicas >= 0
  {
    7 * (w.pools[n].replicas - Desired(w.pools[n])) + TopRank(w, n)
  }

  /** NiFi finishes the transition it was asked for, before the timer runs out. */
  ghost predicate Settles(w: World, m: World, n: string)
    requires Scaling(w, n)
  {
    && m.service == w.service && m.namespace == w.namespace
    && n in m.pools && m.pools[n] == w.pools[n]
    && TopRank(m, n) <= TopRank(w, n) && TopRank(m, n) in {0, 1, 3, 5}
    && !TimedOut(m, n)
  }

  ghost predicate FairRound(w: World, w': World, n: string)
    requires Scaling(w, n)
  {
    exists m :: Settles(w, m, n) && w' == Reconcile(m, n, ALL_OK)
  }

  /** From a settled state every step asks for the next transition or lets the node go. */
  lemma SettledStepAdvances(top: Option<NodeStatus>, address: string, replicas: int, desired: int, policy: Policy,
                            current: Option<Progress>, now: int)
    requires replicas > desired && policy.offload && now - StartedAt(current, address, now) <= policy.timeout
    requires top.Some? ==> StatusRank(top.value) in {1, 3, 5}
    ensures var o := OffloadStep(top, address, replicas, desired, policy, current, now, ALL_OK);
            !o.failed && (o.replicas == replicas - 1
                          || (o.replicas == replicas && top.Some? && o.call.SetState?
                          && StatusRank(o.call.status) < StatusRank(top.value)))
  {
  }

  lemma FairRoundProgress(w: World, w': World, n: string)
    requires Scaling(w, n) && FairRound(w, w', n)
    ensures n in w'.pools && w'.pools[n].replicas >= 0 && Desired(w'.pools[n]) == Desired(w.pools[n])
            && w'.pools[n].policy == w.pools[n].policy
    ensures Remaining(w', n) < Remaining(w, n)
  {
    var m :| Settles(w, m, n) && w' == Reconcile(m, n, ALL_OK);
    ReconcileAdvances(m, n);
  }

  lemma ReconcileAdvances(m: World, n: string)
    requires Scaling(m, n) && TopRank(m, n) in {0, 1, 3, 5} && !TimedOut(m, n)
    ensures var w' := Reconcile(m, n, ALL_OK);
            && n in w'.pools && w'.pools[n].replicas >= 0 && Desired(w'.pools[n]) == Desired(m.pools[n])
            && w'.pools[n].policy == m.pools[n].policy
            && Remaining(w', n) < Remaining(m, n)
  {
    var p := m.pools[n];
    var address := TopAddress(m, n);
    var top := if address in m.nodes then Some(m.nodes[address]) else None;
    var o := OffloadStep(top, address, p.replicas, Desired(p), p.policy, p.progress, m.now, ALL_OK);
    SettledStepAdvances(top, address, p.replicas, Desired(p), p.policy, p.progress, m.now);
    var q := Persist(p, o, ALL_OK);
    PersistReplicas(p, o, ALL_OK);
    assert PoolStep(m, n, ALL_OK) == (q, o.call);
    AdvanceLowersRemaining(m, n, q, o.call);
  }

  lemma AdvanceLowersRemaining(m: World, n: string, q: Pool, call: Call)
    requires Scaling(m, n) && q.(replicas := m.pools[n].replicas, progress := m.pools[n].progress) == m.pools[n]
    requires q.replicas == m.pools[n].replicas - 1
             || (q.replicas == m.pools[n].replicas && call.SetState? && StatusRank(call.status) < TopRank(m, n))
    ensures var w' := Applied(m, TopAddress(m, n), call).(pools := m.pools[n := q]);
            Remaining(w', n) < Remaining(m, n)
  {
    var w' := Applied(m, TopAddress(m, n), call).(pools := m.pools[n := q]);
    assert q.replicas == m.pools[n].replicas ==> TopAddress(w', n) == TopAddress(m, n);
  }

  /** Under a fair environment the pool reaches its desired size within `Remaining` rounds. */
  lemma {:induction false} FairRunReachesDesired(run: seq<World>, n: string)
    requires |run| > 0 && n in run[0].pools && run[0].pools[n].replicas >= 0
    requires |run| > Remaining(run[0], n) && run[0].pools[n].policy.offload
    requires forall i :: 0 <= i < |run| - 1 && Scaling(run[i], n) ==> FairRound(run[i], run[i + 1], n)
    ensures exists i :: 0 <= i < |run| && n in run[i].pools && run[i].pools[n].replicas <= Desired(run[i].pools[n])
    decreases |run|
  {
    if Scaling(run[0], n) {
      FairRoundProgress(run[0], run[1], n);
      var rest := run[1..];
      forall i | 0 <= i < |rest| - 1 && Scaling(rest[i], n) ensures FairRound(rest[i], rest[i + 1], n) {
        assert rest[i] == run[i + 1] && rest[i + 1] == run[i + 2];
      }
      FairRunReachesDesired(rest, n);
      var i :| 0 <= i < |rest| && n in rest[i].pools && rest[i].pools[n].replicas <= Desired(rest[i].pools[n]);
      assert run[i + 1] == rest[i];
    } else {
      assert run[0].pools[n].replicas <= Desired(run[0].pools[n]);
    }
  }
}
