/** What a deployment comes to, in terms of its spec alone: when a target reaches NiFi, how it is
    put down as deployed, and what a retry, a gate, a cancel and a lost start change. */
module RolloutDeploys {
  import opened Text
  import opened Rollout
  import opened RolloutLaws
  import opened RolloutRuns
  import opened RolloutSteps

  // --- starting --------------------------------------------------------------------------------

  /** Nothing is under way for a deployment that has its group. */
  predicate Resting(w: World) {
    w.retiring == "" && w.active.None? && !Outstanding(w) && w.processGroup != ""
  }

  /** The spec asks for something else than what is down as deployed, or the live flow drifted. */
  predicate Wanted(w: World, spec: Spec, a: Answers) {
    w.artifactDigest != spec.digest || w.deployedVersion != spec.version || a.drift == ForceReplace
  }

  /** The rollback on record is complete and is for this very generation and digest. */
  predicate RolledBackFor(w: World, spec: Spec) {
    w.lastRollback.Some?
    && w.lastRollback.value == Rollback(spec.generation, w.lastRollback.value.failedVersion, spec.digest, true)
  }

  /** The checkpoint's name is free, or holds exactly this snapshot. */
  predicate NameServes(w: World, spec: Spec, storeOk: bool) {
    var cm := ConfigMapName(spec.name, spec.digest);
    if cm in w.store then w.store[cm] == spec.snapshot else storeOk
  }

  /** A wanted target reaches NiFi exactly if it is not the one last rolled back, its checkpoint can
      be stored and NiFi accepts: after a rollback any new generation or digest is deployed. */
  lemma RestingDeploysIff(w: World, spec: Spec, a: Answers, name: string, maxRetries: nat)
    requires Inv(w, name, maxRetries) && Admissible(spec, name, maxRetries) && Resting(w)
    requires Wanted(w, spec, a) && !spec.blueGreen && !spec.stopAll
    ensures var r := Reconcile(w, spec, a);
            && (r.mutations > w.mutations <==>
                  && !RolledBackFor(w, spec) && a.groupOk && NameServes(w, spec, a.storeOk)
                  && a.createOk && a.reply.id != "")
            && (RolledBackFor(w, spec) || !a.groupOk ==> r == w)
  {
    var r := Reconcile(w, spec, a);
    assert r == Compare(w, spec, a);
    if a.groupOk && !Blocked(w, spec) {
      var active := EnsureActive(w, spec, spec.version, spec.digest, InPlace);
      var prepared := active.(active := Some(active.active.value.(phase := Prepared)));
      assert r == SendReplace(prepared, spec, a);
      EnsureKeeps(w, spec, InPlace, name, maxRetries);
      assert Settled(prepared, name, maxRetries);
      CollisionStopsReplace(prepared, spec, a, name, maxRetries);
    }
  }

  /** The request that then runs carries the spec's bytes, and its checkpoint holds them. */
  ghost predicate Runs(r: World, spec: Spec) {
    && Outstanding(r) && r.request.value.operation == InPlace && r.request.value.failure == ""
    && r.request.value.digest == spec.digest && r.request.value.version == spec.version
    && r.requestBytes == spec.snapshot && Holds(r.store, r.request.value.configMap, spec.snapshot)
    && r.request.value.configMap == ConfigMapName(spec.name, spec.digest)
    && r.retiring == "" && !AwaitsReadiness(r)
  }

  lemma SentRuns(w: World, spec: Spec, a: Answers, name: string, maxRetries: nat)
    requires Inv(w, name, maxRetries) && Admissible(spec, name, maxRetries) && Resting(w)
    requires Wanted(w, spec, a) && a.groupOk && !spec.blueGreen && !spec.stopAll && !RolledBackFor(w, spec)
    requires NameServes(w, spec, a.storeOk) && a.createOk && a.reply.id != "" && a.reply.failure == ""
    ensures var r := Reconcile(w, spec, a);
            && Runs(r, spec) && r.request.value.id == a.reply.id && r.request.value.complete == a.reply.complete
            && r.active == Some(Active(Replacing, InPlace, spec.version, spec.digest, w.deployedVersion,
                                       w.artifactDigest, false, 0))
            && r == w.(request := r.request, active := r.active, store := r.store, requestBytes := spec.snapshot,
                       mutations := w.mutations + 1)
  {
    var r := Reconcile(w, spec, a);
    assert r == Compare(w, spec, a);
    var active := EnsureActive(w, spec, spec.version, spec.digest, InPlace);
    var prepared := active.(active := Some(active.active.value.(phase := Prepared)));
    assert r == SendReplace(prepared, spec, a);
    NameIsNotEmpty(spec.name, spec.digest);
    var cm := ConfigMapName(spec.name, spec.digest);
    var store := PersistSnapshot(prepared.store, cm, spec.snapshot, a.storeOk).value;
    var sending := prepared.(store := store, active := Some(prepared.active.value.(phase := Replacing)));
    assert r == Requested(sending, spec, cm, a.reply);
  }

  /** With StopAllThenApply nothing is sent before the group is stopped: the first reconcile only
      prepares, and is prepared exactly when the group has been drained and stopped. */
  lemma StopsFirst(w: World, spec: Spec, a: Answers)
    requires Resting(w) && Wanted(w, spec, a) && a.groupOk && !spec.blueGreen && spec.stopAll
             && !RolledBackFor(w, spec)
    ensures var r := Reconcile(w, spec, a);
            && r == w.(active := r.active)
            && (r.active.Some? && r.active.value.phase == Prepared <==> a.preparation == Stopped)
            && (r.active.Some? ==> r.active.value.digest == spec.digest && r.active.value.stopsAll)
  {
    assert Reconcile(w, spec, a) == Compare(w, spec, a) == StartReplace(w, spec, a);
  }

  /** A group that is to be stopped first is stopped, and then the spec's target is sent. */
  lemma StoppedThenSent(w: World, spec: Spec, stopped: Answers, sent: Answers)
    requires w.retiring == "" && !Outstanding(w) && w.processGroup != "" && !RolledBackFor(w, spec)
    requires (w.active.Some? ==> w.active.value.operation != InPlace) && Wanted(w, spec, stopped)
             && Wanted(w, spec, sent)
    requires !spec.cancel && !spec.blueGreen && spec.stopAll && NonBlank(spec.snapshot)
    requires stopped.groupOk && stopped.preparation == Stopped && sent.groupOk
    requires NameServes(w, spec, sent.storeOk) && sent.createOk && sent.reply.id != "" && sent.reply.failure == ""
    ensures var again := Reconcile(Reconcile(w, spec, stopped), spec, sent);
            Runs(again, spec) && again.mutations == w.mutations + 1
  {
    var first := Reconcile(w, spec, stopped);
    assert first == Compare(w, spec, stopped) == StartReplace(w, spec, stopped);
    assert first == w.(active := first.active) && first.active.value.phase == Prepared;
    var again := Reconcile(first, spec, sent);
    assert again == Compare(first, spec, sent) == StartReplace(first, spec, sent) == SendReplace(first, spec, sent);
    NameIsNotEmpty(spec.name, spec.digest);
    var cm := ConfigMapName(spec.name, spec.digest);
    var store := PersistSnapshot(first.store, cm, spec.snapshot, sent.storeOk).value;
    var sending := first.(store := store, active := Some(first.active.value.(phase := Replacing)));
    assert again == Requested(sending, spec, cm, sent.reply);
  }

  // --- success ---------------------------------------------------------------------------------

  /** The spec's target is down as deployed and as the last success, and no rollout is under way. */
  predicate PutDown(w: World, spec: Spec) {
    && w.artifactDigest == spec.digest && w.deployedVersion == spec.version && w.request.None? && w.active.None?
    && w.lastSuccessful.Some? && w.lastSuccessful.value.digest == spec.digest
  }

  predicate Deployed(w: World, spec: Spec) {
    PutDown(w, spec) && Resting(w)
  }

  /** A deployed target stays as it is for as long as the live flow matches or is only reported on. */
  lemma DeployedStays(w: World, spec: Spec, a: Answers)
    requires Deployed(w, spec) && a.drift != ForceReplace && a.drift != Matches(true)
    ensures Reconcile(w, spec, a) == w
  {
    assert Reconcile(w, spec, a) == Compare(w, spec, a);
  }

  /** A success is on record with the spec's bytes unless its digest was the last success already. */
  predicate RecordedFor(w: World, r: World, spec: Spec) {
    && (if w.lastSuccessful.Some? && w.lastSuccessful.value.digest == spec.digest
        then r.lastSuccessful == w.lastSuccessful && r.successBytes == w.successBytes
        else
          var entry := Entry(spec.version, spec.digest, ConfigMapName(spec.name, spec.digest), Succeeded, "");
          && r.lastSuccessful == Some(entry) && r.successBytes == spec.snapshot
          && r.history != [] && r.history[|r.history| - 1].digest == spec.digest
          && r.history[|r.history| - 1].version == spec.version
          && r.history[|r.history| - 1].verdict == Succeeded)
    && (r.lastRollback == if w.lastRollback.Some? && w.lastRollback.value.failedGeneration < spec.generation
                          then None else w.lastRollback)
  }

  /** The spec's digest is the last success already, or its snapshot can be stored. */
  predicate Recordable(w: World, spec: Spec, storeOk: bool) {
    (w.lastSuccessful.Some? && w.lastSuccessful.value.digest == spec.digest) || NameServes(w, spec, storeOk)
  }

  lemma TrimRecords(w: World, t: World, spec: Spec, group: string, undeleted: set<string>)
    requires t.lastSuccessful.Some? && t.lastSuccessful.value.digest == spec.digest
    requires t == w.(store := t.store, history := t.history, lastSuccessful := t.lastSuccessful,
                     successBytes := t.successBytes)
    requires t == w || (t.history != [] && t.lastSuccessful.value.verdict == Succeeded
                        && Repeats(t.history[|t.history| - 1], t.lastSuccessful.value))
    ensures var r := Synced(Trim(t, Limit(spec), undeleted), spec, group, spec.version, spec.digest);
            && PutDown(r, spec) && r.processGroup == group && r.retiring == w.retiring
            && r.lastSuccessful == t.lastSuccessful
            && r.successBytes == t.successBytes && r.mutations == w.mutations && r.settlements == w.settlements + 1
            && (t != w ==> r.history != [] && Repeats(r.history[|r.history| - 1], t.lastSuccessful.value))
            && (r.lastRollback == if w.lastRollback.Some? && w.lastRollback.value.failedGeneration < spec.generation
                                  then None else w.lastRollback)
  {
    TrimSpares(t, Limit(spec), undeleted);
  }

  lemma RecordsEntry(w: World, spec: Spec, storeOk: bool)
    ensures var t := RecordSuccess(w, spec, spec.snapshot, spec.version, spec.digest, Succeeded, storeOk);
            && (t.None? <==> !NameServes(w, spec, storeOk))
            && (t.Some? ==>
              var entry := Entry(spec.version, spec.digest, ConfigMapName(spec.name, spec.digest), Succeeded, "");
              && t.value == w.(store := t.value.store, history := t.value.history, lastSuccessful := Some(entry),
                               successBytes := spec.snapshot)
              && t.value.history != [] && Repeats(t.value.history[|t.value.history| - 1], entry))
  {
  }

  /** Marking a rollout in sync deploys exactly what it names, with its entry and its bytes on
      record; a rollback of an older generation is forgotten and no other. */
  lemma InSyncDeploys(w: World, spec: Spec, group: string, a: Answers)
    ensures var r := MarkInSync(w, spec, group, spec.version, spec.digest, spec.snapshot, a);
            && (r.Some? <==> Recordable(w, spec, a.storeOk))
            && (r.Some? ==>
              && PutDown(r.value, spec) && RecordedFor(w, r.value, spec) && r.value.mutations == w.mutations
              && r.value.processGroup == group && r.value.retiring == w.retiring
              && r.value.settlements == w.settlements + 1)
  {
    RecordsEntry(w, spec, a.storeOk);
    var recorded := RecordSuccess(w, spec, spec.snapshot, spec.version, spec.digest, Succeeded, a.storeOk);
    if w.lastSuccessful.Some? && w.lastSuccessful.value.digest == spec.digest {
      TrimRecords(w, w, spec, group, a.undeleted);
    } else if recorded.Some? {
      TrimRecords(w, recorded.value, spec, group, a.undeleted);
    }
  }

  /** A poll reports what NiFi says of the request and changes nothing else. */
  lemma PollReports(w: World, spec: Spec, a: Answers)
    requires w.retiring == "" && !spec.cancel && !AwaitsReadiness(w)
    requires Outstanding(w) && w.request.value.failure == "" && !w.request.value.complete
    requires a.pollOk && a.reply.failure == ""
    ensures var r := Reconcile(w, spec, a);
            && r == w.(request := r.request) && r.request.Some?
            && r.request.value == w.request.value.(complete := a.reply.complete, id := r.request.value.id)
            && r.request.value.id == (if a.reply.id != "" then a.reply.id else w.request.value.id)
  {
    assert Reconcile(w, spec, a) == Resume(w, spec, a) == PollRequest(w, spec, a);
  }

  /** A finished request deploys its target, or hands it to the readiness gate. */
  lemma FinishedDeploys(w: World, spec: Spec, a: Answers, name: string, maxRetries: nat)
    requires Inv(w, name, maxRetries) && Admissible(spec, name, maxRetries) && Runs(w, spec)
    requires w.request.value.complete && !spec.cancel && Serves(a) && a.finishOk
    ensures var r := Reconcile(w, spec, a);
            && r.mutations == w.mutations
            && if spec.readinessGate
               then AwaitsReadiness(r) && r.active.value.digest == spec.digest && r.lastSuccessful == w.lastSuccessful
                    && r == w.(active := r.active, request := None)
               else Deployed(r, spec) && RecordedFor(w, r, spec)
  {
    var r := Reconcile(w, spec, a);
    assert r == Resume(w, spec, a) == CompleteReplace(w, spec, a);
    var status := w.request.value.(complete := true, id := "");
    var w1 := w.(request := Some(status));
    assert ReadSnapshot(w.store, status.configMap) == Some(spec.snapshot);
    if spec.readinessGate {
      var gated := EnsureActive(w1, spec, status.version, status.digest, InPlace);
      assert r == gated.(active := Some(gated.active.value.(phase := AwaitingReadiness)), request := None);
    } else {
      InSyncDeploys(w1, spec, w1.processGroup, a);
      var done := MarkInSync(w1, spec, w1.processGroup, spec.version, spec.digest, spec.snapshot, a);
      assert r == FinishRollout(w, w1, spec, spec.version, spec.digest, spec.snapshot, a) == done.value;
    }
  }

  /** The gate deploys the spec's target exactly when it is ready, the final check passes and the
      snapshot can be recorded; while it waits nothing changes. */
  lemma GateDeploysIff(w: World, spec: Spec, a: Answers)
    requires AwaitsReadiness(w) && w.retiring == "" && !spec.cancel && w.processGroup != ""
    ensures var r := Reconcile(w, spec, a);
            && (r.settlements > w.settlements <==> a.gate == GateReady && a.finishOk && Recordable(w, spec, a.storeOk))
            && (r.settlements > w.settlements ==> Deployed(r, spec) && RecordedFor(w, r, spec))
            && (a.gate != GateTimedOut && r.settlements == w.settlements ==> r == w)
  {
    InSyncDeploys(w, spec, w.processGroup, a);
    var r := Reconcile(w, spec, a);
    var done := MarkInSync(w, spec, w.processGroup, spec.version, spec.digest, spec.snapshot, a);
    assert r == AwaitGate(w, spec, a);
    if a.gate == GateReady && a.finishOk {
      assert r == if done.Some? then done.value else w;
    } else {
      assert r.settlements == w.settlements;
    }
  }

  /** A finished request and, when the spec asks for it, a gate that is ready. */
  lemma RunEnds(w: World, spec: Spec, finished: Answers, gated: Answers, later: Answers, name: string,
      maxRetries: nat)
    requires Inv(w, name, maxRetries) && Admissible(spec, name, maxRetries) && Runs(w, spec) && !spec.cancel
    requires w.request.value.complete && Serves(finished) && finished.finishOk
    requires gated.gate == GateReady && gated.finishOk
    requires later.drift != ForceReplace && later.drift != Matches(true)
    ensures var done := Reconcile(w, spec, finished);
            var r := if spec.readinessGate then Reconcile(done, spec, gated) else done;
            && Deployed(r, spec) && RecordedFor(w, r, spec) && r.mutations == w.mutations
            && Reconcile(r, spec, later) == r
  {
    FinishedDeploys(w, spec, finished, name, maxRetries);
    var done := Reconcile(w, spec, finished);
    if spec.readinessGate {
      GateDeploysIff(done, spec, gated);
      DeployedStays(Reconcile(done, spec, gated), spec, later);
    } else {
      DeployedStays(done, spec, later);
    }
  }

  lemma AnsweredRuns(w: World, spec: Spec, a: Answers, name: string, maxRetries: nat)
    requires Inv(w, name, maxRetries) && Admissible(spec, name, maxRetries) && Runs(w, spec) && !spec.cancel
    requires !w.request.value.complete && a.pollOk && a.reply.failure == ""
    ensures var r := Reconcile(w, spec, a);
            && Inv(r, name, maxRetries) && Runs(r, spec) && r.request.value.complete == a.reply.complete
            && r == w.(request := r.request)
  {
    PollReports(w, spec, a);
    ReconcileKeeps(w, spec, a, name, maxRetries);
  }

  /** From a wanted target to a deployed one: sent once, polled until NiFi is done, completed, gated
      when the spec asks for it, and then left alone. */
  lemma TargetIsDeployed(w: World, spec: Spec, a: Answers, polled: Answers, finished: Answers, gated: Answers,
      later: Answers, name: string, maxRetries: nat)
    requires Inv(w, name, maxRetries) && Admissible(spec, name, maxRetries) && Resting(w)
    requires Wanted(w, spec, a) && a.groupOk && !spec.blueGreen && !spec.stopAll && !spec.cancel
             && !RolledBackFor(w, spec)
    requires NameServes(w, spec, a.storeOk) && a.createOk && a.reply.id != "" && a.reply.failure == ""
             && !a.reply.complete
    requires Serves(polled) && Serves(finished) && finished.finishOk && gated.gate == GateReady && gated.finishOk
    requires later.drift != ForceReplace && later.drift != Matches(true)
    ensures var done := Reconcile(Reconcile(Reconcile(w, spec, a), spec, polled), spec, finished);
            var r := if spec.readinessGate then Reconcile(done, spec, gated) else done;
            && Deployed(r, spec) && RecordedFor(w, r, spec) && r.mutations == w.mutations + 1
            && Reconcile(r, spec, later) == r
  {
    var sent := Reconcile(w, spec, a);
    SentRuns(w, spec, a, name, maxRetries);
    ReconcileKeeps(w, spec, a, name, maxRetries);
    AnsweredRuns(sent, spec, polled, name, maxRetries);
    RunEnds(Reconcile(sent, spec, polled), spec, finished, gated, later, name, maxRetries);
  }

  /** A deployment without a group is imported, and what was imported is put down as deployed. */
  lemma FirstImport(w: World, spec: Spec, a: Answers)
    requires w.processGroup == "" && w.retiring == "" && w.active.None? && !Outstanding(w)
    ensures var r := Reconcile(w, spec, a);
            && (r.mutations > w.mutations <==> a.importOk)
            && (r.processGroup != "" <==> a.importOk && a.importedGroup != "")
            && (r.processGroup == "" ==> r == w.(active := r.active, mutations := r.mutations))
            && (r.processGroup != "" ==>
              && r.processGroup == a.importedGroup && r.artifactDigest == spec.digest
              && r.deployedVersion == spec.version && r.request.None? && r.retiring == ""
              && r.active.Some? && r.active.value.operation == InPlace && r.active.value.phase == Preparing)
  {
    assert Reconcile(w, spec, a) == Compare(w, spec, a) == ImportFirst(w, spec, a);
  }

  /** The reconcile after an import finds its target deployed and records the success, exactly when the
      group can be read and named, the flow started and the snapshot stored. */
  lemma ImportedDeploys(w: World, spec: Spec, a: Answers)
    requires w.processGroup != "" && w.artifactDigest == spec.digest && w.deployedVersion == spec.version
    requires w.request.None? && w.retiring == "" && !AwaitsReadiness(w) && !(spec.cancel && w.active.Some?)
    requires w.lastSuccessful.None? && !RolledBackFor(w, spec)
    requires a.drift.Matches?
    ensures var r := Reconcile(w, spec, a);
            if a.groupOk && a.metadataOk && a.finalizeOk && NameServes(w, spec, a.storeOk)
            then Deployed(r, spec) && RecordedFor(w, r, spec) && r.mutations == w.mutations
            else r == w
  {
    InSyncDeploys(w, spec, w.processGroup, a);
    var r := Reconcile(w, spec, a);
    assert r == Compare(w, spec, a);
    if a.groupOk {
      assert r == Steady(w, spec, a.drift.statusChanged, a);
    }
  }

  lemma PromoteDeploys(before: World, w: World, spec: Spec, candidate: GroupId, blue: string, a: Answers)
    ensures var r := Promote(before, w, spec, candidate, blue, a);
            if !Recordable(w, spec, a.storeOk) then r == before.(mutations := w.mutations + 1)
            else
              && PutDown(r, spec) && RecordedFor(w, r, spec) && r.processGroup == candidate && r.retiring == blue
              && r.settlements == w.settlements + 1 && r.mutations == w.mutations + 1
  {
    InSyncDeploys(Retiring(w, blue), spec, candidate, a);
  }

  /** A promotion that can be recorded puts the spec's target down in the candidate group, and the
      reconcile after it retires the old group and changes nothing else. */
  lemma PromotionDeploys(w: World, spec: Spec, a: Answers, next: Answers)
    requires w.retiring == "" && !Outstanding(w) && !AwaitsReadiness(w) && w.processGroup != ""
    requires !(spec.cancel && w.active.Some?) && a.groupOk && Wanted(w, spec, a) && spec.blueGreen
    requires !RolledBackFor(w, spec) && a.blueGreen.Promoted?
    ensures var r := Reconcile(w, spec, a);
            && (r.settlements > w.settlements <==> Recordable(w, spec, a.storeOk))
            && (if !Recordable(w, spec, a.storeOk) then r == w.(mutations := w.mutations + 1)
                else
                  && PutDown(r, spec) && RecordedFor(w, r, spec) && r.processGroup == a.blueGreen.candidate
                  && r.retiring == a.blueGreen.blue
                  && (r.retiring != "" ==> Reconcile(r, spec, next) == r.(retiring := "")))
  {
    var active := EnsureActive(w, spec, spec.version, spec.digest, BlueGreen);
    var r := Reconcile(w, spec, a);
    assert r == Compare(w, spec, a) == BlueGreenStep(w, spec, a);
    assert r == Promote(w, active, spec, a.blueGreen.candidate, a.blueGreen.blue, a);
    PromoteDeploys(w, active, spec, a.blueGreen.candidate, a.blueGreen.blue, a);
  }

  /** The other outcomes of a BlueGreen step: an adopted candidate becomes the live group, an aborted
      rollout leaves no trace, and a switch back puts the failed target on record. */
  lemma BlueGreenOutcomes(w: World, spec: Spec, a: Answers)
    ensures var r := BlueGreenStep(w, spec, a);
            match a.blueGreen
            case Busy(starts) =>
              && r == w.(active := r.active, mutations := r.mutations) && (r.mutations > w.mutations <==> starts)
              && r.active.Some? && r.active.value.operation == BlueGreen && r.active.value.digest == spec.digest
            case Adopted(candidate) =>
              && r.processGroup == candidate && r.active.Some? && r.active.value.operation == BlueGreen
              && r.artifactDigest == w.artifactDigest && r.settlements == w.settlements
            case Aborted => r == w.(active := None)
            case SwitchedBack(reason) =>
              && r.active.None? && r.processGroup == w.processGroup && r.artifactDigest == w.artifactDigest
              && r.history != [] && r.history[|r.history| - 1].digest == spec.digest
              && r.history[|r.history| - 1].verdict == Failed && r.history[|r.history| - 1].reason == reason
            case Promoted(_, _) => true
  {
    var active := EnsureActive(w, spec, spec.version, spec.digest, BlueGreen);
    if a.blueGreen.SwitchedBack? {
      SwitchBackRecords(active, spec, a.blueGreen.reason, a);
    }
  }

  lemma SwitchBackRecords(w: World, spec: Spec, reason: string, a: Answers)
    requires w.active.Some?
    ensures var r := SwitchBack(w, spec, reason, a);
            && r == w.(active := None, lastRollback := r.lastRollback, history := r.history, store := r.store)
            && r.history != [] && r.history[|r.history| - 1].digest == w.active.value.digest
            && r.history[|r.history| - 1].version == w.active.value.version
            && r.history[|r.history| - 1].verdict == Failed && r.history[|r.history| - 1].reason == reason
  {
    var target := w.active.value;
    var over := w.(active := None, lastRollback := SwitchBack(w, spec, reason, a).lastRollback);
    TrimSpares(RecordFailure(over, target.version, target.digest, "", reason), Limit(spec), a.undeleted);
  }

  // --- retries, cancels and lost starts --------------------------------------------------------

  /** A failed request is tried again exactly while the budget lasts: one more retry is counted, the
      rollout starts over, and no request is left or sent. */
  lemma RetriesIff(w: World, spec: Spec, failed: Request, a: Answers, name: string, maxRetries: nat)
    requires Settled(w, name, maxRetries) && !AwaitsReadiness(w) && spec.maxRetries <= maxRetries
             && failed.failure != "" && failed.operation != Restore
    ensures var r := HandleFailure(w, spec, failed, a);
            var budget := w.active.Some? && w.active.value.operation == InPlace
                          && w.active.value.retries < spec.maxRetries;
            && (budget <==> r.request.None?)
            && (budget ==>
              && r.active == Some(w.active.value.(retries := w.active.value.retries + 1, phase := Preparing))
              && r.mutations == w.mutations && r.artifactDigest == w.artifactDigest)
  {
    var f := Cleaned(failed, a.cleanupOk);
    var t := Booked(w, spec, f, a);
    var r := HandleFailure(w, spec, failed, a);
    BookedKeeps(w, spec, f, a, name);
    if RetryAllowed(t, spec) {
      assert r == Retry(t);
    } else if !spec.rollbackEnabled || RollbackSnapshot(t).None? {
      assert r == t.(request := Some(f), active := None);
    } else if a.rollbackGroupOk && a.rollbackCreateOk && a.rollbackReply.id != "" {
      RollbackSentBytes(t, spec, f, a, name, maxRetries);
    } else {
      assert r == t.(request := Some(f));
    }
  }

  /** Without a retry or a rollback the failed request stays on record, closed exactly when NiFi let it
      be deleted, and the rollout is over. */
  lemma FailedRequestCloses(w: World, spec: Spec, failed: Request, a: Answers)
    requires failed.failure != "" && (failed.operation == Restore
             || (!spec.rollbackEnabled && !(w.active.Some? && w.active.value.operation == InPlace
                                            && w.active.value.retries < spec.maxRetries)))
    ensures var r := HandleFailure(w, spec, failed, a);
            && r.active.None? && r.mutations == w.mutations && r.request.Some?
            && (Outstanding(r) <==> failed.id != "" && !a.cleanupOk)
            && r.request.value == failed.(id := r.request.value.id)
  {
    var f := Cleaned(failed, a.cleanupOk);
    var t := Booked(w, spec, f, a);
    TrimSpares(RecordFailure(w, f.version, f.digest, f.configMap, f.failure), Limit(spec), a.undeleted);
    assert HandleFailure(w, spec, failed, a) == t.(request := Some(f), active := None);
  }

  /** A gate that times out starts the rollout over within the budget and gives it up beyond it; the
      flow that did not become ready is never put down as deployed. */
  lemma TimeoutGivesUpIff(w: World, spec: Spec, a: Answers)
    requires AwaitsReadiness(w) && w.retiring == "" && !spec.cancel && a.gate == GateTimedOut
    requires w.active.value.retries >= 0
    ensures var r := Reconcile(w, spec, a);
            && r == w.(active := r.active, request := r.request) && r.settlements == w.settlements
            && (r.active.None? <==> w.active.value.retries >= spec.maxRetries)
            && (r.active.Some? ==>
              r.active.value == w.active.value.(retries := w.active.value.retries + 1, phase := Preparing)
              && r.request.None?)
  {
    assert Reconcile(w, spec, a) == AwaitGate(w, spec, a);
  }

  /** Cancelling an in-place rollout drops its record and its request and touches nothing else. */
  lemma CancelDrops(w: World, spec: Spec, a: Answers)
    requires spec.cancel && w.active.Some? && w.retiring == ""
    ensures var r := Reconcile(w, spec, a);
            if w.active.value.operation == BlueGreen then r == w
            else r.active.None? && r.request.None? && r == w.(active := None, request := None)
  {
  }

  /** A rollback that finished in NiFi whose flow cannot be started loses only its request. */
  lemma UnstartedRollback(w: World, spec: Spec, a: Answers)
    requires w.retiring == "" && !spec.cancel && !AwaitsReadiness(w) && Outstanding(w) && w.request.value.failure == ""
    requires w.request.value.complete && a.groupOk && a.metadataOk && a.deleteOk && !a.finalizeOk
    ensures Reconcile(w, spec, a) == w.(request := Some(w.request.value.(id := "")))
  {
    assert Reconcile(w, spec, a) == Resume(w, spec, a) == CompleteReplace(w, spec, a);
  }

  /** A finished rollback is put on record exactly when the restored flow can be started. Otherwise
      its request is gone and nothing blocks the target that failed: it is prepared and sent again. */
  lemma UnstartedRollbackIsForgotten(w: World, spec: Spec, a: Answers, stopped: Answers, sent: Answers,
      generation: int, name: string, maxRetries: nat)
    requires Inv(w, name, maxRetries) && Admissible(spec, name, maxRetries) && Undoing(w, generation, spec.digest)
    requires w.request.value.complete && w.retiring == "" && !spec.cancel && !spec.blueGreen && spec.stopAll
    requires a.groupOk && a.metadataOk && a.deleteOk && w.artifactDigest != spec.digest
             && w.active.Some? && w.active.value.operation == Restore && (a.pollOk ==> a.reply.failure == "")
    requires stopped.groupOk && stopped.preparation == Stopped && sent.groupOk
             && NameServes(w, spec, sent.storeOk) && sent.createOk && sent.reply.id != "" && sent.reply.failure == ""
    ensures var r := Reconcile(w, spec, a);
            && (Quiet(r, generation, spec.digest) <==> a.finalizeOk)
            && (!a.finalizeOk ==>
              var again := Reconcile(Reconcile(r, spec, stopped), spec, sent);
              Runs(again, spec) && again.mutations == w.mutations + 1)
  {
    if a.finalizeOk {
      UndoingStep(w, spec, a, generation, spec.digest, name, maxRetries);
    } else {
      UnstartedRollback(w, spec, a);
      StoppedThenSent(Reconcile(w, spec, a), spec, stopped, sent);
    }
  }
}
