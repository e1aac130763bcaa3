/** What scale-down steps answer, stated on the spec and the node states themselves: the size a pool is
    taken to, the calls it makes, its timer, and the addresses it computes. */
module ScaleDownSteps {
  import opened Text
  import opened ScaleDown

  // --- the size of a pool ------------------------------------------------------------------------

  /** No reconcile takes a pool from at or above its spec size to below it, and the primary pool never
      loses its last node, whatever the policy and the answers. */
  lemma SpecIsFloor(w: World, n: string, answers: Answers)
    requires n in w.pools && w.pools[n].replicas >= 0
    ensures var p, q := w.pools[n], Reconcile(w, n, answers).pools[n];
            && (p.specReplicas > 0 && p.replicas >= p.specReplicas ==> q.replicas >= p.specReplicas)
            && (p.primary && p.replicas >= 1 ==> q.replicas >= 1)
            && q.replicas >= 0 && q.specReplicas == p.specReplicas && q.primary == p.primary && q.policy == p.policy
  {
    var p := w.pools[n];
    var q := PoolStep(w, n, answers).0;
    assert Reconcile(w, n, answers).pools[n] == q;
    if !NothingToOffload(p) && (p.primary ==> answers.clientOk) {
      var address := Address(w, n, p.replicas - 1);
      var top := if address in w.nodes then Some(w.nodes[address]) else None;
      StepSize(top, address, p.replicas, Desired(p), p.policy, p.progress, w.now, answers);
    }
  }

  lemma StepSize(top: Option<NodeStatus>, address: string, replicas: int, desired: int, policy: Policy,
                 current: Option<Progress>, now: int, answers: Answers)
    requires replicas > desired
    ensures var o := OffloadStep(top, address, replicas, desired, policy, current, now, answers);
            o.replicas == replicas || o.replicas == replicas - 1 || o.replicas == desired
  {
  }

  /** The size the spec asks for: at least one node for the primary pool, none for a group. */
  ghost predicate IsTarget(p: Pool, size: int) {
    if p.specReplicas > 0 then size == p.specReplicas else size == if p.primary then 1 else 0
  }

  /** A pool at or below the size its spec asks for is set to it at once, and no node is touched. */
  lemma ScalesUp(w: World, n: string, answers: Answers, size: int)
    requires n in w.pools && IsTarget(w.pools[n], size) && 0 <= w.pools[n].replicas <= size
    requires answers.statusWritten && answers.replicasWritten
    ensures Reconcile(w, n, answers).pools[n].replicas == size
    ensures Reconcile(w, n, answers).nodes == w.nodes && Reconcile(w, n, answers).files == w.files
  {
  }

  /** A pool at or above its spec size stays there; one below it is set to it, without a call. */
  ghost predicate KeepsSpec(p: Pool, q: Pool, call: Call, answers: Answers) {
    p.specReplicas > 0 ==>
      && (p.replicas >= p.specReplicas ==> q.replicas >= p.specReplicas)
      && (p.replicas < p.specReplicas && answers.statusWritten && answers.replicasWritten ==>
            q.replicas == p.specReplicas && call == NoCall)
  }

  lemma StepKeepsSpec(w: World, n: string, answers: Answers)
    requires n in w.pools && w.pools[n].replicas >= 0
    ensures KeepsSpec(w.pools[n], PoolStep(w, n, answers).0, PoolStep(w, n, answers).1, answers)
  {
    SpecIsFloor(w, n, answers);
    assert Reconcile(w, n, answers).pools[n] == PoolStep(w, n, answers).0;
  }

  /** Without offload a pool goes to that size in one reconcile, even when NiFi does not answer, and no
      node is touched. */
  lemma WithoutOffload(w: World, n: string, answers: Answers, size: int)
    requires n in w.pools && w.pools[n].replicas >= 0 && !w.pools[n].policy.offload && IsTarget(w.pools[n], size)
    requires answers.statusWritten && answers.replicasWritten
    ensures Reconcile(w, n, answers).pools[n].replicas == size
    ensures Reconcile(w, n, answers).nodes == w.nodes && Reconcile(w, n, answers).files == w.files
  {
  }

  /** A fair run takes a pool that is too large to exactly the size its spec asks for. */
  lemma {:induction false} FairRunReachesSpec(run: seq<World>, n: string, size: int)
    requires |run| > 0 && n in run[0].pools && IsTarget(run[0].pools[n], size) && run[0].pools[n].replicas >= size
    requires |run| > Remaining(run[0], n) && run[0].pools[n].policy.offload
    requires forall i :: 0 <= i < |run| - 1 && Scaling(run[i], n) ==> FairRound(run[i], run[i + 1], n)
    ensures exists i :: 0 <= i < |run| && n in run[i].pools && run[i].pools[n].replicas == size
    decreases |run|
  {
    if Scaling(run[0], n) {
      FairRoundProgress(run[0], run[1], n);
      var m :| Settles(run[0], m, n) && run[1] == Reconcile(m, n, ALL_OK);
      SpecIsFloor(m, n, ALL_OK);
      StepsDownByOne(m, n, ALL_OK);
      var rest := run[1..];
      forall i | 0 <= i < |rest| - 1 && Scaling(rest[i], n) ensures FairRound(rest[i], rest[i + 1], n) {
        assert rest[i] == run[i + 1] && rest[i + 1] == run[i + 2];
      }
      FairRunReachesSpec(rest, n, size);
      var i :| 0 <= i < |rest| && n in rest[i].pools && rest[i].pools[n].replicas == size;
      assert run[i + 1] == rest[i];
    } else {
      assert run[0].pools[n].replicas == size;
    }
  }

  // --- calls -------------------------------------------------------------------------------------

  /** Within its time a node is driven through the documented states, one call at a time: a connected
      node is disconnected, a disconnected one offloaded, an offloaded one removed, and a node in any
      other state is waited for. */
  lemma CallsFollowStates(status: NodeStatus, address: string, replicas: int, desired: int, policy: Policy,
                          current: Option<Progress>, now: int, answers: Answers)
    requires replicas > desired && policy.offload && answers.listOk && answers.callOk
    requires now - StartedAt(current, address, now) <= policy.timeout
    ensures var call := OffloadStep(Some(status), address, replicas, desired, policy, current, now, answers).call;
            && (call == SetState(Disconnecting) <==> status == Connected || status == Connecting)
            && (call == SetState(Offloading) <==> status == Disconnected)
            && (call == Remove <==> status == Offloaded)
            && (call == NoCall <==> status == Disconnecting || status == Offloading || status.Unknown?)
  {
  }

  /** The reported progress names the node and the phase it was brought to. */
  lemma ProgressNamesPhase(status: NodeStatus, address: string, replicas: int, desired: int, policy: Policy,
                           current: Option<Progress>, now: int, answers: Answers)
    requires replicas > desired && policy.offload && answers.listOk && answers.callOk
    requires now - StartedAt(current, address, now) <= policy.timeout
    ensures var p := OffloadStep(Some(status), address, replicas, desired, policy, current, now, answers).status;
            && p.Some? && p.value.address == address
            && p.value.phase == match status
                                case Connected => "Disconnecting"
                                case Connecting => "Disconnecting"
                                case Disconnecting => "Disconnecting"
                                case Offloaded => "Removing"
                                case _ => "Offloading"
  {
  }

  /** A node that has timed out under force is removed whatever its state, and its pod goes with it and
      its progress; without force it is left alone. */
  lemma ExpiredNodeGoesIff(w: World, n: string, answers: Answers)
    requires Scaling(w, n) && w.pools[n].replicas > 0 && TopAddress(w, n) in w.nodes && TimedOut(w, n)
    requires answers.clientOk && answers.listOk && answers.statusWritten && answers.replicasWritten
    ensures var p, r := w.pools[n], Reconcile(w, n, answers);
            if p.policy.force && answers.callOk
            then TopAddress(w, n) !in r.nodes && r.pools[n].replicas == p.replicas - 1 && r.pools[n].progress.None?
            else r.nodes == w.nodes && r.files == w.files && r.pools[n].replicas == p.replicas
  {
    var p, address := w.pools[n], TopAddress(w, n);
    var o := OffloadStep(Some(w.nodes[address]), address, p.replicas, Desired(p), p.policy, p.progress, w.now, answers);
    assert PoolStep(w, n, answers) == (Persist(p, o, answers), o.call);
  }

  /** Progress of the same node in the same phase is left as it is, with its start time. A new size
      reaches the StatefulSet exactly when the step did not fail and neither did a write before it. */
  lemma PersistIff(p: Pool, o: Outcome, answers: Answers)
    requires p.progress.Some? && o.status.Some?
    ensures var same := p.progress.value.address == o.status.value.address
                        && p.progress.value.phase == o.status.value.phase;
            var q := Persist(p, o, answers);
            && q.progress == (if !same && answers.statusWritten then o.status else p.progress)
            && q.replicas == (if !o.failed && (same || answers.statusWritten) && answers.replicasWritten
                              then o.replicas else p.replicas)
  {
  }

  /** The phase of a node that is held names its state: no two states NiFi documents read alike. */
  lemma StatesReadApart(s: NodeStatus, t: NodeStatus)
    requires !s.Unknown? && !t.Unknown? && StatusText(s) == StatusText(t)
    ensures s == t
  {
    assert |"CONNECTED"| == 9 && |"CONNECTING"| == 10 && |"DISCONNECTING"| == 13 && |"DISCONNECTED"| == 12;
    assert |"OFFLOADING"| == 10 && |"OFFLOADED"| == 9 && "CONNECTED"[0] != "OFFLOADED"[0];
    assert "CONNECTING"[0] != "OFFLOADING"[0];
  }

  // --- the timer ---------------------------------------------------------------------------------

  /** A node that is taken on anew has its full time: the timer starts now and has not expired, whatever
      the progress of the node before it. */
  lemma FreshNodeHasFullTime(w: World, n: string)
    requires n in w.pools && w.pools[n].replicas > 0 && w.pools[n].policy.timeout >= 0
    requires w.pools[n].progress.None? || w.pools[n].progress.value.address != TopAddress(w, n)
    ensures !TimedOut(w, n)
    ensures Scaling(w, n) && TopAddress(w, n) in w.nodes ==>
              var q := Reconcile(w, n, ALL_OK).pools[n].progress;
              q.Some? && q.value.address == TopAddress(w, n) && q.value.startedAt == Some(w.now)
  {
    var p, address := w.pools[n], TopAddress(w, n);
    if Scaling(w, n) && address in w.nodes {
      ProgressNamesPhase(w.nodes[address], address, p.replicas, Desired(p), p.policy, p.progress, w.now, ALL_OK);
      var o :=
          OffloadStep(Some(w.nodes[address]), address, p.replicas, Desired(p), p.policy, p.progress, w.now, ALL_OK);
      StatusCarriesStart(Some(w.nodes[address]), address, p.replicas, Desired(p), p.policy, p.progress, w.now, ALL_OK);
      assert PoolStep(w, n, ALL_OK) == (Persist(p, o, ALL_OK), o.call);
    }
  }

  /** A node has timed out exactly when more than its time has passed since its recorded start. */
  lemma TimedOutIff(w: World, n: string, started: int)
    requires n in w.pools && w.pools[n].replicas > 0
    requires w.pools[n].progress.Some? && w.pools[n].progress.value.address == TopAddress(w, n)
    requires w.pools[n].progress.value.startedAt == Some(started)
    ensures TimedOut(w, n) <==> w.now > started + w.pools[n].policy.timeout
  {
  }

  // --- addresses ---------------------------------------------------------------------------------

  /** An address is the pod's name, that of its StatefulSet and its ordinal, within the headless
      Service's domain. */
  lemma AddressIsPodName(name: string, service: string, namespace: string, ordinal: nat) returns (pod: string)
    ensures PoolNodeAddress(name, service, namespace, ordinal) == pod + "." + service + "." + namespace + ".svc"
    ensures |pod| > |name| && pod[..|name|] == name && pod[|name|] == '-' && Numeral(pod[|name| + 1..]) == ordinal
  {
    pod := name + "-" + Decimal(ordinal);
    assert pod[|name| + 1..] == Decimal(ordinal);
    DecimalRoundTrip(ordinal);
    assert PoolNodeAddress(name, service, namespace, ordinal) == pod + "." + service + "." + namespace + ".svc";
  }
}
