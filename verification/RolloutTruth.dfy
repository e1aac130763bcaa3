/** What a rollout puts down as deployed, against what NiFi was sent. */
module RolloutTruth {
  import opened Text
  import opened Rollout
  import opened RolloutLaws
  import opened RolloutRuns

  // --- what was sent -------------------------------------------------------------------------------

  /** The snapshot is a function of the source digest (one target name). */
  ghost predicate Addressed(spec: Spec, content: string -> string) {
    spec.snapshot == content(spec.digest)
  }

  /** The bytes last sent are those of the request in flight, or of the rollout that waits. */
  ghost predicate Sent(w: World, content: string -> string) {
    && (Outstanding(w) && w.request.value.failure == "" && w.request.value.operation != Restore ==>
      w.requestBytes == content(w.request.value.digest))
    && (AwaitsReadiness(w) ==> w.requestBytes == content(w.active.value.digest))
  }

  lemma SendSends(w: World, spec: Spec, a: Answers, name: string, maxRetries: nat, content: string -> string)
    requires Settled(w, name, maxRetries) && Admissible(spec, name, maxRetries) && Addressed(spec, content)
    requires w.active.Some? && !Outstanding(w) && !AwaitsReadiness(w)
    ensures Sent(SendReplace(w, spec, a), content)
  {
    var cm := ConfigMapName(spec.name, spec.digest);
    var store := PersistSnapshot(w.store, cm, spec.snapshot, a.storeOk);
    PersistKeeps(w, spec, a.storeOk, name);
    if store.Some? && a.reply.failure != "" {
      SentKeeps(w, store.value, cm, spec, a.reply, name, maxRetries);
      var w2 :=
          Requested(w.(store := store.value, active := Some(w.active.value.(phase := Replacing))), spec, cm, a.reply);
      FailureKeeps(w2, spec, Cleaned(w2.request.value, a.deleteOk), a, name, maxRetries);
    }
  }

  lemma StartSends(w: World, spec: Spec, a: Answers, name: string, maxRetries: nat, content: string -> string)
    requires Inv(w, name, maxRetries) && Admissible(spec, name, maxRetries) && Addressed(spec, content)
    requires !Outstanding(w) && !AwaitsReadiness(w) && w.processGroup != ""
    ensures Sent(StartReplace(w, spec, a), content)
  {
    EnsureKeeps(w, spec, InPlace, name, maxRetries);
    var w1 := EnsureActive(w, spec, spec.version, spec.digest, InPlace);
    var prepared := w1.(active := Some(w1.active.value.(phase := Prepared)));
    assert Settled(prepared, name, maxRetries);
    SendSends(w1, spec, a, name, maxRetries, content);
    SendSends(prepared, spec, a, name, maxRetries, content);
  }

  lemma BlueGreenSends(w: World, spec: Spec, a: Answers, content: string -> string)
    requires !Outstanding(w) && !AwaitsReadiness(w)
    ensures Sent(BlueGreenStep(w, spec, a), content)
  {
    MoveLeaves(w, EnsureActive(w, spec, spec.version, spec.digest, BlueGreen), spec, a);
  }

  lemma SteadySends(w: World, spec: Spec, changed: bool, a: Answers, content: string -> string)
    requires !Outstanding(w) && !AwaitsReadiness(w)
    ensures Sent(Steady(w, spec, changed, a), content)
  {
    var r := Steady(w, spec, changed, a);
    assert r == w || (r.active.None? && r.request.None?);
  }

  lemma ResumeSends(w: World, spec: Spec, a: Answers, name: string, maxRetries: nat, content: string -> string)
    requires Inv(w, name, maxRetries) && Admissible(spec, name, maxRetries) && Sent(w, content) && Outstanding(w)
             && !AwaitsReadiness(w)
    ensures Sent(Resume(w, spec, a), content)
  {
    var r := Resume(w, spec, a);
    if w.request.value.failure != "" {
      FailureKeeps(w, spec, w.request.value, a, name, maxRetries);
    } else if w.request.value.complete {
      CompleteSends(w, spec, a, name, maxRetries, content);
    } else {
      assert r == PollRequest(w, spec, a);
      var request := Refreshed(w.request.value, a.reply);
      if a.pollOk && request.failure != "" {
        FailureKeeps(w.(request := Some(request)), spec, Cleaned(request, a.deleteOk), a, name, maxRetries);
      }
    }
  }

  lemma CompleteSends(w: World, spec: Spec, a: Answers, name: string, maxRetries: nat, content: string -> string)
    requires Inv(w, name, maxRetries) && Sent(w, content) && Outstanding(w) && w.request.value.failure == ""
             && !AwaitsReadiness(w)
    ensures Sent(CompleteReplace(w, spec, a), content)
  {
    var status := w.request.value.(complete := true, id := "");
    var w1 := w.(request := Some(status));
    var r := CompleteReplace(w, spec, a);
    InSyncClears(w1, spec, w1.processGroup, status.version, status.digest, w.requestBytes, a);
    assert ReadSnapshot(w.store, status.configMap) == Some(w.requestBytes);
    assert r == w || r.requestBytes == w.requestBytes;
    assert r.active == w.active || r.active.None?
           || (AwaitsReadiness(r) && r.active.value.digest == status.digest && status.operation != Restore);
  }

  lemma CompareSends(w: World, spec: Spec, a: Answers, name: string, maxRetries: nat, content: string -> string)
    requires Inv(w, name, maxRetries) && Admissible(spec, name, maxRetries) && Addressed(spec, content)
    requires !Outstanding(w) && !AwaitsReadiness(w)
    ensures Sent(Compare(w, spec, a), content)
  {
    var r := Compare(w, spec, a);
    if w.processGroup == "" {
      assert r.request == w.request || r.request.None?;
      assert r.active == EnsureActive(w, spec, spec.version, spec.digest, InPlace).active;
    } else if !a.groupOk || Blocked(w, spec) {
      assert r == w;
    } else if w.artifactDigest == spec.digest && w.deployedVersion == spec.version && a.drift != ForceReplace {
      if a.drift.Matches? {
        assert r == Steady(w, spec, a.drift.statusChanged, a);
        SteadySends(w, spec, a.drift.statusChanged, a, content);
      }
    } else if spec.blueGreen {
      assert r == BlueGreenStep(w, spec, a);
      BlueGreenSends(w, spec, a, content);
    } else {
      assert r == StartReplace(w, spec, a);
      StartSends(w, spec, a, name, maxRetries, content);
    }
  }

  lemma GateSends(w: World, spec: Spec, a: Answers, content: string -> string)
    requires AwaitsReadiness(w) && !Outstanding(w) && Sent(w, content)
    ensures Sent(AwaitGate(w, spec, a), content)
  {
    var r := AwaitGate(w, spec, a);
    if a.gate == GateReady && a.finishOk {
      var done := MarkInSync(w, spec, w.processGroup, spec.version, spec.digest, spec.snapshot, a);
      InSyncClears(w, spec, w.processGroup, spec.version, spec.digest, spec.snapshot, a);
      assert r == if done.Some? then done.value else w;
    } else if a.gate == GateTimedOut && RetryAllowed(w, spec) {
      assert r == Retry(w);
    } else {
      assert r == w || r == w.(active := None);
    }
  }

  lemma ReconcileSends(w: World, spec: Spec, a: Answers, name: string, maxRetries: nat, content: string -> string)
    requires Inv(w, name, maxRetries) && Admissible(spec, name, maxRetries) && Addressed(spec, content)
             && Sent(w, content)
    ensures Sent(Reconcile(w, spec, a), content)
  {
    var r := Reconcile(w, spec, a);
    if w.retiring != "" || (spec.cancel && w.active.Some?) {
      assert r == w.(retiring := r.retiring) || r == w.(request := None, active := None);
    } else if AwaitsReadiness(w) {
      assert r == AwaitGate(w, spec, a);
      GateSends(w, spec, a, content);
    } else if Outstanding(w) {
      assert r == Resume(w, spec, a);
      ResumeSends(w, spec, a, name, maxRetries, content);
    } else {
      assert r == Compare(w, spec, a);
      CompareSends(w, spec, a, name, maxRetries, content);
    }
  }

  // --- marking the deployment in sync or rolled back ----------------------------------------------

  /** The bytes recorded with LastSuccessful are those of its digest. */
  ghost predicate Backed(w: World, content: string -> string) {
    w.lastSuccessful.Some? ==> w.successBytes == content(w.lastSuccessful.value.digest)
  }

  /** The step records nothing. */
  predicate Silent(w: World, r: World) {
    r.lastSuccessful == w.lastSuccessful && r.successBytes == w.successBytes && r.settlements == w.settlements
  }

  /** The step ends the rollout and puts `digest` down as deployed, and as the last success. */
  ghost predicate Marks(w: World, r: World, digest: string, content: string -> string) {
    && r.request.None? && r.active.None? && r.requestBytes == w.requestBytes && r.settlements == w.settlements + 1
    && r.artifactDigest == digest && r.lastSuccessful.Some? && r.lastSuccessful.value.digest == digest
    && r.successBytes == content(digest)
  }

  ghost predicate Tells(w: World, r: World, digest: string, content: string -> string) {
    Silent(w, r) || Marks(w, r, digest, content)
  }

  lemma InSyncMarks(w: World, spec: Spec, group: string, version: string, digest: string, snapshot: string, a: Answers,
      content: string -> string)
    requires Backed(w, content) && snapshot == content(digest)
    ensures var r := MarkInSync(w, spec, group, version, digest, snapshot, a);
            r.Some? ==> Marks(w, r.value, digest, content)
  {
    var recorded := RecordSuccess(w, spec, snapshot, version, digest, Succeeded, a.storeOk);
    if w.lastSuccessful.Some? && w.lastSuccessful.value.digest == digest {
      TrimSpares(w, Limit(spec), a.undeleted);
    } else if recorded.Some? {
      TrimSpares(recorded.value, Limit(spec), a.undeleted);
    }
  }

  lemma FinishTells(before: World, w: World, spec: Spec, version: string, digest: string, snapshot: string, a: Answers,
      content: string -> string)
    requires Backed(w, content) && snapshot == content(digest) && Silent(w, before)
             && before.requestBytes == w.requestBytes
    ensures Tells(w, FinishRollout(before, w, spec, version, digest, snapshot, a), digest, content)
  {
    InSyncMarks(w, spec, w.processGroup, version, digest, snapshot, a, content);
  }

  lemma CompleteTells(w: World, spec: Spec, a: Answers, name: string, maxRetries: nat, content: string -> string)
      returns (digest: string)
    requires Inv(w, name, maxRetries) && Admissible(spec, name, maxRetries) && Sent(w, content) && Backed(w, content)
    requires Outstanding(w) && w.request.value.failure == "" && !AwaitsReadiness(w)
    ensures Tells(w, CompleteReplace(w, spec, a), digest, content) && content(digest) == w.requestBytes
  {
    var status := w.request.value.(complete := true, id := "");
    var w1 := w.(request := Some(status));
    var r := CompleteReplace(w, spec, a);
    assert ReadSnapshot(w.store, status.configMap) == Some(w.requestBytes);
    if status.operation == Restore {
      digest := w.lastSuccessful.value.digest;
      RestoreTells(w, w1, spec, a, name, maxRetries, content);
      var done := MarkRolledBack(w1, spec, w1.lastSuccessful.value, w1.successBytes, a);
      assert r == w || r == w1 || r == done.value;
    } else {
      digest := status.digest;
      if a.groupOk && a.metadataOk && a.deleteOk && a.finalizeOk && !spec.readinessGate {
        assert r == FinishRollout(w, w1, spec, status.version, status.digest, w.requestBytes, a);
        FinishTells(w, w1, spec, status.version, status.digest, w.requestBytes, a, content);
      } else {
        assert Silent(w, r);
      }
    }
  }

  lemma RestoreTells(w: World, w1: World, spec: Spec, a: Answers, name: string, maxRetries: nat,
      content: string -> string)
    requires Inv(w, name, maxRetries) && Backed(w, content) && spec.name == name
    requires w1 == w.(request := w1.request) && w.lastSuccessful.Some? && w.lastRollback.Some?
    ensures var done := MarkRolledBack(w1, spec, w1.lastSuccessful.value, w1.successBytes, a);
            && RollbackSnapshot(w1) == Some(w1.successBytes)
            && done.Some? && Marks(w, done.value, w.lastSuccessful.value.digest, content)
  {
    RolledBackKeeps(w1, spec, a, name, maxRetries);
    var e := w1.lastSuccessful.value;
    var recorded := RecordSuccess(w1, spec, w1.successBytes, e.version, e.digest, RolledBack, a.storeOk);
    TrimSpares(recorded.value, Limit(spec), a.undeleted);
  }

  lemma ResumeTells(w: World, spec: Spec, a: Answers, name: string, maxRetries: nat, content: string -> string)
      returns (digest: string)
    requires Inv(w, name, maxRetries) && Admissible(spec, name, maxRetries) && Sent(w, content) && Backed(w, content)
    requires Outstanding(w) && !AwaitsReadiness(w)
    ensures Silent(w, Resume(w, spec, a))
            || (Marks(w, Resume(w, spec, a), digest, content) && content(digest) == w.requestBytes)
  {
    var r := Resume(w, spec, a);
    digest := "";
    if w.request.value.failure != "" {
      assert r == HandleFailure(w, spec, w.request.value, a);
      FailureKeeps(w, spec, w.request.value, a, name, maxRetries);
    } else if w.request.value.complete {
      assert r == CompleteReplace(w, spec, a);
      digest := CompleteTells(w, spec, a, name, maxRetries, content);
    } else {
      assert r == PollRequest(w, spec, a);
      var request := Refreshed(w.request.value, a.reply);
      if a.pollOk && request.failure != "" {
        FailureKeeps(w.(request := Some(request)), spec, Cleaned(request, a.deleteOk), a, name, maxRetries);
      }
    }
  }

  lemma GateTells(w: World, spec: Spec, a: Answers, content: string -> string)
    requires AwaitsReadiness(w) && Addressed(spec, content) && Backed(w, content)
    ensures Tells(w, AwaitGate(w, spec, a), spec.digest, content)
  {
    var r := AwaitGate(w, spec, a);
    if a.gate == GateReady {
      assert r == FinishRollout(w, w, spec, spec.version, spec.digest, spec.snapshot, a);
      FinishTells(w, w, spec, spec.version, spec.digest, spec.snapshot, a, content);
    } else {
      assert Silent(w, r);
    }
  }

  lemma SendTells(w: World, spec: Spec, a: Answers, name: string, maxRetries: nat)
    requires Settled(w, name, maxRetries) && Admissible(spec, name, maxRetries)
    requires w.active.Some? && !Outstanding(w) && !AwaitsReadiness(w)
    ensures Silent(w, SendReplace(w, spec, a))
  {
    var cm := ConfigMapName(spec.name, spec.digest);
    var store := PersistSnapshot(w.store, cm, spec.snapshot, a.storeOk);
    PersistKeeps(w, spec, a.storeOk, name);
    if store.Some? && a.reply.failure != "" {
      SentKeeps(w, store.value, cm, spec, a.reply, name, maxRetries);
      var w2 :=
          Requested(w.(store := store.value, active := Some(w.active.value.(phase := Replacing))), spec, cm, a.reply);
      FailureKeeps(w2, spec, Cleaned(w2.request.value, a.deleteOk), a, name, maxRetries);
    }
  }

  lemma StartTells(w: World, spec: Spec, a: Answers, name: string, maxRetries: nat)
    requires Inv(w, name, maxRetries) && Admissible(spec, name, maxRetries)
    requires !Outstanding(w) && !AwaitsReadiness(w) && w.processGroup != ""
    ensures Silent(w, StartReplace(w, spec, a))
  {
    EnsureKeeps(w, spec, InPlace, name, maxRetries);
    var w1 := EnsureActive(w, spec, spec.version, spec.digest, InPlace);
    var prepared := w1.(active := Some(w1.active.value.(phase := Prepared)));
    assert Settled(prepared, name, maxRetries);
    SendTells(w1, spec, a, name, maxRetries);
    SendTells(prepared, spec, a, name, maxRetries);
  }

  lemma MoveTells(before: World, w: World, spec: Spec, a: Answers, content: string -> string)
    requires w.active.Some? && w == before.(active := w.active) && Addressed(spec, content) && Backed(before, content)
    ensures Tells(before, BlueGreenMove(before, w, spec, a), spec.digest, content)
  {
    var r := BlueGreenMove(before, w, spec, a);
    match a.blueGreen
    case Promoted(candidate, blue) =>
      assert r == Promote(before, w, spec, candidate, blue, a);
      InSyncMarks(Retiring(w, blue), spec, candidate, spec.version, spec.digest, spec.snapshot, a, content);
    case SwitchedBack(reason) =>
      assert r == SwitchBack(w, spec, reason, a);
      SwitchBackSilent(w, spec, reason, a);
    case _ =>
      assert Silent(before, r);
  }

  lemma SwitchBackSilent(w: World, spec: Spec, reason: string, a: Answers)
    requires w.active.Some?
    ensures Silent(w, SwitchBack(w, spec, reason, a))
  {
  }

  lemma CompareTells(w: World, spec: Spec, a: Answers, name: string, maxRetries: nat, content: string -> string)
    requires Inv(w, name, maxRetries) && Admissible(spec, name, maxRetries) && Addressed(spec, content)
             && Backed(w, content)
    requires !Outstanding(w) && !AwaitsReadiness(w)
    ensures Tells(w, Compare(w, spec, a), spec.digest, content)
  {
    var r := Compare(w, spec, a);
    if w.processGroup == "" || !a.groupOk || Blocked(w, spec) {
      assert Silent(w, r);
    } else if w.artifactDigest == spec.digest && w.deployedVersion == spec.version && a.drift != ForceReplace {
      InSyncMarks(w, spec, w.processGroup, spec.version, spec.digest, spec.snapshot, a, content);
      assert r == w || Some(r) == MarkInSync(w, spec, w.processGroup, spec.version, spec.digest, spec.snapshot, a);
    } else if spec.blueGreen {
      assert r == BlueGreenStep(w, spec, a);
      MoveTells(w, EnsureActive(w, spec, spec.version, spec.digest, BlueGreen), spec, a, content);
    } else {
      assert r == StartReplace(w, spec, a);
      StartTells(w, spec, a, name, maxRetries);
    }
  }

  /** Every reconcile records nothing or marks one digest: that of the flow last sent when a request
      completes, that of the current source otherwise. */
  lemma ReconcileTells(w: World, spec: Spec, a: Answers, name: string, maxRetries: nat, content: string -> string)
      returns (digest: string)
    requires Inv(w, name, maxRetries) && Admissible(spec, name, maxRetries) && Addressed(spec, content)
    requires Sent(w, content) && Backed(w, content)
    ensures var r := Reconcile(w, spec, a);
            Silent(w, r)
            || (Marks(w, r, digest, content)
            && if InRequest(w) then content(digest) == w.requestBytes else digest == spec.digest)
  {
    var r := Reconcile(w, spec, a);
    digest := spec.digest;
    if w.retiring != "" || (spec.cancel && w.active.Some?) {
      assert Silent(w, r);
    } else if AwaitsReadiness(w) {
      assert r == AwaitGate(w, spec, a);
      GateTells(w, spec, a, content);
    } else if Outstanding(w) {
      assert r == Resume(w, spec, a);
      digest := ResumeTells(w, spec, a, name, maxRetries, content);
    } else {
      assert r == Compare(w, spec, a);
      CompareTells(w, spec, a, name, maxRetries, content);
    }
  }

  predicate InRequest(w: World) {
    Outstanding(w) && !AwaitsReadiness(w)
  }

  predicate InFlight(w: World) {
    Outstanding(w) || AwaitsReadiness(w)
  }

  /** Whenever a rollout in flight ends with the deployment marked in sync or rolled back, the digest
      put down as deployed is that of the flow NiFi was sent for it, except when the source changed
      while the readiness gate was waiting: the gate then puts down the new digest, although its
      flow was never sent. */
  lemma DeployedIsSent(w: World, spec: Spec, a: Answers, name: string, maxRetries: nat, content: string -> string)
    requires Inv(w, name, maxRetries) && Admissible(spec, name, maxRetries) && Addressed(spec, content)
    requires Sent(w, content) && Backed(w, content)
    ensures var r := Reconcile(w, spec, a);
            InFlight(w) && r.settlements > w.settlements ==>
              && r.request.None? && r.active.None? && r.requestBytes == w.requestBytes
              && r.lastSuccessful.Some? && r.lastSuccessful.value.digest == r.artifactDigest
              && r.successBytes == content(r.artifactDigest)
              && (content(r.artifactDigest) == r.requestBytes
                  <==> (AwaitsReadiness(w) ==> content(spec.digest) == content(w.active.value.digest)))
  {
    var digest := ReconcileTells(w, spec, a, name, maxRetries, content);
  }

  /** What every state of a run satisfies. */
  ghost predicate Truthful(w: World, name: string, maxRetries: nat, content: string -> string) {
    Inv(w, name, maxRetries) && Sent(w, content) && Backed(w, content)
  }

  ghost predicate TraceStep(w: World, v: World, spec: Spec, a: Answers, name: string, maxRetries: nat,
                            content: string -> string) {
    && Admissible(spec, name, maxRetries) && Addressed(spec, content)
    && (EnvStep(w, v) || v == Reconcile(w, spec, a))
  }

  /** A run with the spec and the answers of every reconcile spelt out. */
  ghost predicate IsTrace(run: seq<World>, specs: seq<Spec>, answers: seq<Answers>, name: string, maxRetries: nat,
                          content: string -> string) {
    && |run| == |specs| + 1 == |answers| + 1
    && (forall i :: 0 <= i < |specs| ==>
          TraceStep(run[i], run[i + 1], specs[i], answers[i], name, maxRetries, content))
  }

  lemma EnvKeepsTruth(w: World, v: World, name: string, maxRetries: nat, content: string -> string)
    requires Truthful(w, name, maxRetries, content) && EnvStep(w, v)
    ensures Truthful(v, name, maxRetries, content)
  {
  }

  lemma StepKeepsTruth(w: World, v: World, spec: Spec, a: Answers, name: string, maxRetries: nat,
                       content: string -> string)
    requires Truthful(w, name, maxRetries, content) && TraceStep(w, v, spec, a, name, maxRetries, content)
    ensures Truthful(v, name, maxRetries, content)
  {
    if EnvStep(w, v) {
      EnvKeepsTruth(w, v, name, maxRetries, content);
    } else {
      ReconcileKeeps(w, spec, a, name, maxRetries);
      ReconcileSends(w, spec, a, name, maxRetries, content);
      var digest := ReconcileTells(w, spec, a, name, maxRetries, content);
      TellingBacks(w, v, digest, content);
    }
  }

  lemma TellingBacks(w: World, v: World, digest: string, content: string -> string)
    requires Backed(w, content) && Tells(w, v, digest, content)
    ensures Backed(v, content)
  {
  }

  lemma {:induction false} TraceKeeps(run: seq<World>, specs: seq<Spec>, answers: seq<Answers>, i: nat, name: string,
                                      maxRetries: nat, content: string -> string)
    requires IsTrace(run, specs, answers, name, maxRetries, content) && i < |run| && Initial(run[0])
    ensures Truthful(run[i], name, maxRetries, content)
  {
    if i > 0 {
      var k := i - 1;
      TraceKeeps(run, specs, answers, k, name, maxRetries, content);
      assert TraceStep(run[k], run[k + 1], specs[k], answers[k], name, maxRetries, content);
      StepKeepsTruth(run[k], run[i], specs[k], answers[k], name, maxRetries, content);
    }
  }

  /** In every run, the flow put down as deployed is the flow that was sent exactly if the source did
      not change during the readiness wait. */
  lemma DeployedFlowsWereSent(run: seq<World>, specs: seq<Spec>, answers: seq<Answers>, i: nat, name: string,
      maxRetries: nat, content: string -> string)
    requires IsTrace(run, specs, answers, name, maxRetries, content) && i < |specs| && Initial(run[0])
    ensures InFlight(run[i]) && run[i + 1].settlements > run[i].settlements ==>
              (content(run[i + 1].artifactDigest) == run[i + 1].requestBytes
               <==> (AwaitsReadiness(run[i]) ==> content(specs[i].digest) == content(run[i].active.value.digest)))
  {
    TraceKeeps(run, specs, answers, i, name, maxRetries, content);
    assert TraceStep(run[i], run[i + 1], specs[i], answers[i], name, maxRetries, content);
    DeployedIsSent(run[i], specs[i], answers[i], name, maxRetries, content);
  }

  /** The exception is real: when the gate opens after the source changed, whether to something new or
      back to the last success, the changed digest is put down as deployed although nothing was
      sent. */
  lemma ReadinessDeploysUnsent(w: World, spec: Spec, a: Answers, content: string -> string)
    requires w.retiring == "" && !spec.cancel && AwaitsReadiness(w) && Addressed(spec, content) && Backed(w, content)
    requires Sent(w, content) && content(spec.digest) != content(w.active.value.digest)
    requires a.gate == GateReady && a.finishOk && a.storeOk
    requires (w.lastSuccessful.Some? && w.lastSuccessful.value.digest == spec.digest)
             || ConfigMapName(spec.name, spec.digest) !in w.store
    ensures var r := Reconcile(w, spec, a);
            && r.artifactDigest == spec.digest && r.requestBytes != content(r.artifactDigest)
            && r.mutations == w.mutations && r.requestBytes == w.requestBytes && r.active.None? && r.request.None?
  {
    var r := Reconcile(w, spec, a);
    assert r == AwaitGate(w, spec, a);
    var done := MarkInSync(w, spec, w.processGroup, spec.version, spec.digest, spec.snapshot, a);
    InSyncMarks(w, spec, w.processGroup, spec.version, spec.digest, spec.snapshot, a, content);
    assert done.Some? && r == done.value;
    InSyncSendsNothing(w, spec, a);
  }

  lemma InSyncSendsNothing(w: World, spec: Spec, a: Answers)
    ensures var done := MarkInSync(w, spec, w.processGroup, spec.version, spec.digest, spec.snapshot, a);
            done.Some? ==> done.value.mutations == w.mutations
  {
  }
}
