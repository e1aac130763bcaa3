/** From a failed target to rest: which target a rollback is kept on record for, how a rollback
    comes to its end, and what starts the deployment again. */
module RolloutSteps {
  import opened Text
  import opened Rollout
  import opened RolloutLaws
  import opened RolloutRuns

  // --- the failing target ----------------------------------------------------------------------

  /** The reconcile learns that NiFi's replace request failed: one on record, or one just sent. */
  predicate LearnsFailure(w: World, a: Answers) {
    if Outstanding(w) then w.request.value.failure != "" || (a.pollOk && a.reply.failure != "")
    else a.reply.failure != ""
  }

  /** The rollback put on record is that of this generation and of the target of the request that
      failed: the outstanding one's, or the spec's when the request is sent by the same reconcile. */
  predicate Begins(w: World, r: World, spec: Spec, a: Answers) {
    && LearnsFailure(w, a)
    && r.lastRollback
       == Some(if Outstanding(w) then Rollback(spec.generation, w.request.value.version, w.request.value.digest, false)
               else Rollback(spec.generation, spec.version, spec.digest, false))
  }

  lemma FailureBegins(w: World, spec: Spec, failed: Request, a: Answers, name: string, maxRetries: nat)
    requires Settled(w, name, maxRetries) && !AwaitsReadiness(w) && spec.maxRetries <= maxRetries
             && failed.failure != ""
    ensures var r := HandleFailure(w, spec, failed, a);
            if r.mutations > w.mutations
            then r.lastRollback == Some(Rollback(spec.generation, failed.version, failed.digest, false))
            else r.lastRollback == w.lastRollback
  {
    var f := Cleaned(failed, a.cleanupOk);
    var t := Booked(w, spec, f, a);
    BookedKeeps(w, spec, f, a, name);
    var r := HandleFailure(w, spec, failed, a);
    if f.operation == Restore {
      assert r == t.(request := Some(f), active := None);
    } else if RetryAllowed(t, spec) {
      assert r == Retry(t);
    } else if !spec.rollbackEnabled || RollbackSnapshot(t).None? {
      assert r == t.(request := Some(f), active := None);
    } else if !a.rollbackGroupOk || !a.rollbackCreateOk || a.rollbackReply.id == "" {
      assert r == t.(request := Some(f));
    } else {
      SentBegins(t, spec, f, a, name, maxRetries);
    }
  }

  lemma SentBegins(t: World, spec: Spec, f: Request, a: Answers, name: string, maxRetries: nat)
    requires Settled(t, name, maxRetries) && RollbackSnapshot(t).Some? && f.operation != Restore
    ensures var sent := SendRollback(t, spec, f, a.rollbackReply);
            var r := if a.rollbackReply.failure == "" then sent
                     else HandleFailure(sent, spec, sent.request.value,
                         a.(cleanupOk := a.cleanupAgainOk, undeleted := a.undeletedAgain));
            && r.mutations == t.mutations + 1
            && r.lastRollback == Some(Rollback(spec.generation, f.version, f.digest, false))
  {
    SendKeeps(t, spec, f, a.rollbackReply, name, maxRetries);
    var sent := SendRollback(t, spec, f, a.rollbackReply);
    if a.rollbackReply.failure != "" {
      var again := a.(cleanupOk := a.cleanupAgainOk, undeleted := a.undeletedAgain);
      var g := Cleaned(sent.request.value, again.cleanupOk);
      BookedKeeps(sent, spec, g, again, name);
      assert HandleFailure(sent, spec, sent.request.value, again)
             == Booked(sent, spec, g, again).(request := Some(g), active := None);
    }
  }

  lemma SendBegins(w: World, spec: Spec, a: Answers, name: string, maxRetries: nat)
    requires Settled(w, name, maxRetries) && Admissible(spec, name, maxRetries)
    requires w.active.Some? && !Outstanding(w) && !AwaitsReadiness(w)
    ensures var r := SendReplace(w, spec, a);
            r.lastRollback == w.lastRollback || Begins(w, r, spec, a)
  {
    var cm := ConfigMapName(spec.name, spec.digest);
    var store := PersistSnapshot(w.store, cm, spec.snapshot, a.storeOk);
    PersistKeeps(w, spec, a.storeOk, name);
    if store.Some? && a.reply.failure != "" {
      SentKeeps(w, store.value, cm, spec, a.reply, name, maxRetries);
      var w2 :=
          Requested(w.(store := store.value, active := Some(w.active.value.(phase := Replacing))), spec, cm, a.reply);
      FailureBegins(w2, spec, Cleaned(w2.request.value, a.deleteOk), a, name, maxRetries);
    }
  }

  lemma StartBegins(w: World, spec: Spec, a: Answers, name: string, maxRetries: nat)
    requires Inv(w, name, maxRetries) && Admissible(spec, name, maxRetries)
    requires !Outstanding(w) && !AwaitsReadiness(w) && w.processGroup != ""
    ensures var r := StartReplace(w, spec, a);
            r.lastRollback == w.lastRollback || Begins(w, r, spec, a)
  {
    EnsureKeeps(w, spec, InPlace, name, maxRetries);
    var w1 := EnsureActive(w, spec, spec.version, spec.digest, InPlace);
    var prepared := w1.(active := Some(w1.active.value.(phase := Prepared)));
    assert Settled(prepared, name, maxRetries);
    SendBegins(w1, spec, a, name, maxRetries);
    SendBegins(prepared, spec, a, name, maxRetries);
  }

  lemma ResumeBegins(w: World, spec: Spec, a: Answers, name: string, maxRetries: nat)
    requires Inv(w, name, maxRetries) && Admissible(spec, name, maxRetries) && Outstanding(w) && !AwaitsReadiness(w)
    ensures var r := Resume(w, spec, a);
            || r.lastRollback == w.lastRollback || r.lastRollback.None?
            || Begins(w, r, spec, a) || CompletesRollback(w, r)
  {
    var r := Resume(w, spec, a);
    if w.request.value.failure != "" {
      FailureBegins(w, spec, w.request.value, a, name, maxRetries);
    } else if w.request.value.complete {
      assert r == CompleteReplace(w, spec, a);
      CompleteEnds(w, spec, a);
    } else {
      var request := Refreshed(w.request.value, a.reply);
      assert r == PollRequest(w, spec, a);
      if a.pollOk && request.failure != "" {
        FailureBegins(w.(request := Some(request)), spec, Cleaned(request, a.deleteOk), a, name, maxRetries);
      }
    }
  }

  lemma CompleteEnds(w: World, spec: Spec, a: Answers)
    requires w.request.Some?
    ensures var r := CompleteReplace(w, spec, a);
            r.lastRollback == w.lastRollback || r.lastRollback.None? || CompletesRollback(w, r)
  {
    var status := w.request.value.(complete := true, id := "");
    var w1 := w.(request := Some(status));
    var r := CompleteReplace(w, spec, a);
    if status.operation == Restore {
      if RollbackSnapshot(w1).Some? {
        var done := MarkRolledBack(w1, spec, w1.lastSuccessful.value, RollbackSnapshot(w1).value, a);
        assert r.lastRollback == w.lastRollback || (done.Some? && r == done.value);
      }
    } else if w.request.value.configMap == "" {
      InSyncClears(w1, spec, w1.processGroup, status.version, status.digest, spec.snapshot, a);
    } else if ReadSnapshot(w.store, status.configMap).Some? {
      var bytes := ReadSnapshot(w.store, status.configMap).value;
      InSyncClears(w1, spec, w1.processGroup, status.version, status.digest, bytes, a);
    }
  }

  /** A reconcile leaves the rollback on record alone, forgets it, puts one on record for the target
      whose request it learns failed, or completes one (CompletedRollbackIsQuiet says for what). */
  lemma RollbackRecordTold(w: World, spec: Spec, a: Answers, name: string, maxRetries: nat)
    requires Inv(w, name, maxRetries) && Admissible(spec, name, maxRetries)
    ensures var r := Reconcile(w, spec, a);
            || r.lastRollback == w.lastRollback || r.lastRollback.None?
            || Begins(w, r, spec, a) || CompletesRollback(w, r)
  {
    var r := Reconcile(w, spec, a);
    if w.retiring != "" || (spec.cancel && w.active.Some?) {
      assert r.lastRollback == w.lastRollback;
    } else if AwaitsReadiness(w) {
      InSyncClears(w, spec, w.processGroup, spec.version, spec.digest, spec.snapshot, a);
    } else if Outstanding(w) {
      assert r == Resume(w, spec, a);
      ResumeBegins(w, spec, a, name, maxRetries);
    } else {
      assert r == Compare(w, spec, a);
      CompareBegins(w, spec, a, name, maxRetries);
    }
  }

  lemma CompareBegins(w: World, spec: Spec, a: Answers, name: string, maxRetries: nat)
    requires Inv(w, name, maxRetries) && Admissible(spec, name, maxRetries) && !Outstanding(w) && !AwaitsReadiness(w)
    ensures var r := Compare(w, spec, a);
            || r.lastRollback == w.lastRollback || r.lastRollback.None?
            || Begins(w, r, spec, a) || CompletesRollback(w, r)
  {
    var r := Compare(w, spec, a);
    if w.processGroup == "" || !a.groupOk || Blocked(w, spec) {
      assert r.lastRollback == w.lastRollback;
    } else if w.artifactDigest == spec.digest && w.deployedVersion == spec.version && a.drift != ForceReplace {
      InSyncClears(w, spec, w.processGroup, spec.version, spec.digest, spec.snapshot, a);
    } else if spec.blueGreen {
      assert r == BlueGreenStep(w, spec, a);
      MoveLeaves(w, EnsureActive(w, spec, spec.version, spec.digest, BlueGreen), spec, a);
    } else {
      assert r == StartReplace(w, spec, a);
      StartBegins(w, spec, a, name, maxRetries);
    }
  }

  /** A reconcile in which a rollout of this target fails: its request does, or its traffic is
      switched back. */
  ghost predicate TargetFails(w: World, v: World, generation: int, digest: string) {
    exists spec: Spec, a: Answers ::
      && v == Reconcile(w, spec, a) && spec.generation == generation
      && if Outstanding(w) then w.request.value.digest == digest && LearnsFailure(w, a)
         else spec.digest == digest && (LearnsFailure(w, a) || a.blueGreen.SwitchedBack?)
  }

  lemma RecordFollowsFailure(w: World, spec: Spec, a: Answers, name: string, maxRetries: nat)
    requires Inv(w, name, maxRetries) && Admissible(spec, name, maxRetries)
    ensures var r := Reconcile(w, spec, a);
            r.lastRollback.Some? && !SameFailure(w.lastRollback, r.lastRollback.value) ==>
              TargetFails(w, r, r.lastRollback.value.failedGeneration, r.lastRollback.value.failedDigest)
  {
    RollbackRecordTold(w, spec, a, name, maxRetries);
    CompletedRollbackIsQuiet(w, spec, a, name, maxRetries);
  }

  predicate SameFailure(before: Option<Rollback>, rollback: Rollback) {
    before.Some? && before.value.(completed := rollback.completed) == rollback
  }

  lemma StepFollowsFailure(w: World, v: World, name: string, maxRetries: nat)
    requires Inv(w, name, maxRetries) && Step(w, v, name, maxRetries)
    ensures v.lastRollback.Some? && !SameFailure(w.lastRollback, v.lastRollback.value) ==>
              TargetFails(w, v, v.lastRollback.value.failedGeneration, v.lastRollback.value.failedDigest)
  {
    if !EnvStep(w, v) {
      var spec, a :| Admissible(spec, name, maxRetries) && v == Reconcile(w, spec, a);
      RecordFollowsFailure(w, spec, a, name, maxRetries);
    }
  }

  /** Some step of the run up to `i` is the failure of the target on record. */
  ghost predicate FailedBefore(run: seq<World>, i: nat, rollback: Rollback)
    requires i < |run|
  {
    exists j :: 0 <= j < i && TargetFails(run[j], run[j + 1], rollback.failedGeneration, rollback.failedDigest)
  }

  /** In every run from a fresh deployment, the rollback on record, complete or not, is for a target
      that failed earlier in the run: its generation and its digest are those of that failure. */
  lemma {:induction false} RollbackNamesFailedTarget(run: seq<World>, i: nat, name: string, maxRetries: nat)
    requires IsRun(run, name, maxRetries) && i < |run| && Initial(run[0])
    ensures run[i].lastRollback.Some? ==> FailedBefore(run, i, run[i].lastRollback.value)
  {
    if i > 0 && run[i].lastRollback.Some? {
      var k := i - 1;
      RollbackNamesFailedTarget(run, k, name, maxRetries);
      assert Inv(run[0], name, maxRetries);
      RunKeeps(run, k, name, maxRetries);
      assert Step(run[k], run[k + 1], name, maxRetries);
      StepFollowsFailure(run[k], run[k + 1], name, maxRetries);
    }
  }

  // --- the rollback under way ------------------------------------------------------------------

  /** The rollback of this target has been sent and neither it nor its request has failed. */
  predicate Undoing(w: World, generation: int, digest: string) {
    && Outstanding(w) && w.request.value.operation == Restore && w.request.value.failure == "" && !AwaitsReadiness(w)
    && w.lastRollback.Some? && !w.lastRollback.value.completed
    && w.lastRollback.value.failedGeneration == generation && w.lastRollback.value.failedDigest == digest
  }

  /** Nobody cancels, the rollback does not fail in NiFi, and the restored flow can be started. */
  predicate Unhindered(spec: Spec, a: Answers) {
    !spec.cancel && a.finalizeOk && (a.pollOk ==> a.reply.failure == "")
  }

  /** Until NiFi is done the rollback waits; then it comes to rest exactly when the group can be
      read and named and the request deleted. Nothing is sent. */
  lemma UndoingStep(w: World, spec: Spec, a: Answers, generation: int, digest: string, name: string, maxRetries: nat)
    requires Inv(w, name, maxRetries) && Admissible(spec, name, maxRetries)
    requires Undoing(w, generation, digest) && Unhindered(spec, a)
    ensures var r := Reconcile(w, spec, a);
            && r.mutations == w.mutations && r.successBytes == w.successBytes
            && (if w.retiring == "" && w.request.value.complete && a.groupOk && a.metadataOk && a.deleteOk
                then Quiet(r, generation, digest) && RestsAtLastSuccess(w, r)
                else Undoing(r, generation, digest) && r.lastSuccessful == w.lastSuccessful)
            && (w.retiring == "" && a.pollOk && !w.request.value.complete ==>
              r.request.value.complete == a.reply.complete)
            && (r.retiring == w.retiring || r.retiring == "")
  {
    var r := Reconcile(w, spec, a);
    if w.retiring == "" {
      assert r == Resume(w, spec, a);
      if w.request.value.complete {
        assert r == CompleteReplace(w, spec, a);
        RestoreCompletes(w, spec, a, name, maxRetries);
      } else {
        assert r == PollRequest(w, spec, a);
      }
    }
  }

  /** What is down as deployed is the last success, and so is the newest entry of the history. */
  predicate RestsAtLastSuccess(w: World, r: World) {
    && w.lastSuccessful.Some? && r.lastSuccessful.Some?
    && r.artifactDigest == w.lastSuccessful.value.digest == r.lastSuccessful.value.digest
    && r.deployedVersion == w.lastSuccessful.value.version == r.lastSuccessful.value.version
    && r.lastSuccessful.value.verdict == RolledBack
    && r.history != [] && r.history[|r.history| - 1].verdict == RolledBack
    && r.history[|r.history| - 1].digest == w.lastSuccessful.value.digest
    && r.processGroup == w.processGroup && r.request.None? && r.active.None?
  }

  lemma RestoredRests(w: World, spec: Spec, a: Answers, name: string, maxRetries: nat)
    requires Inv(w, name, maxRetries) && spec.name == name && w.lastSuccessful.Some? && w.lastRollback.Some?
    ensures var r := MarkRolledBack(w, spec, w.lastSuccessful.value, w.successBytes, a);
            r.Some? && RestsAtLastSuccess(w, r.value) && r.value.retiring == w.retiring
  {
    var e := w.lastSuccessful.value;
    RolledBackKeeps(w, spec, a, name, maxRetries);
    var recorded := RecordSuccess(w, spec, w.successBytes, e.version, e.digest, RolledBack, a.storeOk);
    TrimSpares(recorded.value, Limit(spec), a.undeleted);
  }

  lemma RestoreCompletes(w: World, spec: Spec, a: Answers, name: string, maxRetries: nat)
    requires Inv(w, name, maxRetries) && Admissible(spec, name, maxRetries) && a.finalizeOk
    requires Outstanding(w) && w.request.value.operation == Restore && w.request.value.failure == ""
    ensures var r := CompleteReplace(w, spec, a);
            if !a.groupOk || !a.metadataOk || !a.deleteOk then r == w
            else
              && w.lastRollback.Some? && r.lastRollback == Some(w.lastRollback.value.(completed := true))
              && r.mutations == w.mutations && r.successBytes == w.successBytes && r.retiring == w.retiring
              && RestsAtLastSuccess(w, r)
  {
    var r := CompleteReplace(w, spec, a);
    var status := w.request.value.(complete := true, id := "");
    var w1 := w.(request := Some(status));
    assert ReadSnapshot(w.store, status.configMap) == Some(w.requestBytes);
    RolledBackKeeps(w1, spec, a, name, maxRetries);
    RestoredRests(w1, spec, a, name, maxRetries);
    if a.groupOk && a.metadataOk && a.deleteOk {
      assert r == MarkRolledBack(w1, spec, w1.lastSuccessful.value, w1.successBytes, a).value;
    }
  }

  ghost predicate UnhinderedStep(w: World, v: World, generation: int, digest: string, name: string, maxRetries: nat) {
    exists spec: Spec, a: Answers ::
      && Admissible(spec, name, maxRetries) && spec.generation == generation && spec.digest == digest
      && Unhindered(spec, a) && v == Reconcile(w, spec, a)
  }

  ghost predicate UnhinderedRun(run: seq<World>, generation: int, digest: string, name: string, maxRetries: nat) {
    && |run| > 0
    && forall i :: 0 <= i < |run| - 1 ==>
      EnvStep(run[i], run[i + 1]) || UnhinderedStep(run[i], run[i + 1], generation, digest, name, maxRetries)
  }

  lemma UnhinderedKeeps(w: World, v: World, generation: int, digest: string, name: string, maxRetries: nat)
    requires Inv(w, name, maxRetries) && UnhinderedStep(w, v, generation, digest, name, maxRetries)
    requires Undoing(w, generation, digest) || Quiet(w, generation, digest)
    ensures Inv(v, name, maxRetries) && v.mutations == w.mutations
    ensures if Quiet(w, generation, digest) then Quiet(v, generation, digest)
            else Undoing(v, generation, digest) || Quiet(v, generation, digest)
  {
    var spec: Spec, a: Answers :| Admissible(spec, name, maxRetries) && spec.generation == generation
      && spec.digest == digest && Unhindered(spec, a) && v == Reconcile(w, spec, a);
    ReconcileKeeps(w, spec, a, name, maxRetries);
    if Undoing(w, generation, digest) {
      UndoingStep(w, spec, a, generation, digest, name, maxRetries);
    } else {
      QuietStays(w, spec, a);
    }
  }

  lemma {:induction false} UndoingRun(run: seq<World>, i: nat, generation: int, digest: string, name: string,
      maxRetries: nat)
    requires UnhinderedRun(run, generation, digest, name, maxRetries) && i < |run|
    requires Inv(run[0], name, maxRetries) && Undoing(run[0], generation, digest)
    ensures Inv(run[i], name, maxRetries) && run[i].mutations == run[0].mutations
    ensures Undoing(run[i], generation, digest) || Quiet(run[i], generation, digest)
  {
    if i > 0 {
      var k := i - 1;
      UndoingRun(run, k, generation, digest, name, maxRetries);
      assert EnvStep(run[k], run[k + 1]) || UnhinderedStep(run[k], run[k + 1], generation, digest, name, maxRetries);
      if !EnvStep(run[k], run[k + 1]) {
        UnhinderedKeeps(run[k], run[k + 1], generation, digest, name, maxRetries);
      }
    }
  }

  /** A request of this target is in flight, or about to be judged, and the reconcile sends the
      rollback for it: it failed, no retry is left, rollback is enabled, something succeeded before
      and NiFi takes the rollback. */
  predicate RollsBack(w: World, spec: Spec, a: Answers) {
    && w.retiring == "" && !spec.cancel && !AwaitsReadiness(w)
    && Outstanding(w) && w.request.value.operation != Restore
    && (w.request.value.failure != "" || (!w.request.value.complete && a.pollOk && a.reply.failure != ""))
    && !(w.active.Some? && w.active.value.operation == InPlace && w.active.value.retries < spec.maxRetries)
    && spec.rollbackEnabled && w.lastSuccessful.Some?
    && a.rollbackGroupOk && a.rollbackCreateOk && a.rollbackReply.id != "" && a.rollbackReply.failure == ""
  }

  lemma FailureUndoes(w: World, spec: Spec, failed: Request, a: Answers, name: string, maxRetries: nat)
    requires Settled(w, name, maxRetries) && !AwaitsReadiness(w) && spec.maxRetries <= maxRetries
    requires failed.failure != "" && failed.operation != Restore && w.lastSuccessful.Some? && spec.rollbackEnabled
    requires !(w.active.Some? && w.active.value.operation == InPlace && w.active.value.retries < spec.maxRetries)
    requires a.rollbackGroupOk && a.rollbackCreateOk && a.rollbackReply.id != "" && a.rollbackReply.failure == ""
    ensures var r := HandleFailure(w, spec, failed, a);
            && Undoing(r, spec.generation, failed.digest) && r.mutations == w.mutations + 1
            && r.requestBytes == w.successBytes && r.successBytes == w.successBytes
            && r.lastSuccessful == w.lastSuccessful && r.retiring == w.retiring
            && r.lastRollback.value.failedVersion == failed.version
            && r.active.Some? && r.active.value.operation == Restore && r.active.value.stopsAll == spec.stopAll
            && r.request.value.digest == w.lastSuccessful.value.digest
            && r.request.value.complete == a.rollbackReply.complete && r.request.value.id == a.rollbackReply.id
  {
    var f := Cleaned(failed, a.cleanupOk);
    var t := Booked(w, spec, f, a);
    BookedKeeps(w, spec, f, a, name);
    assert !RetryAllowed(t, spec) && RollbackSnapshot(t) == Some(w.successBytes);
    SendKeeps(t, spec, f, a.rollbackReply, name, maxRetries);
    assert HandleFailure(w, spec, failed, a) == SendRollback(t, spec, f, a.rollbackReply);
  }

  /** The failing reconcile sends the last success's bytes back, once, and the rollback is on record
      for the target of the request that failed. */
  lemma FailureIsUndone(w: World, spec: Spec, a: Answers, name: string, maxRetries: nat)
    requires Inv(w, name, maxRetries) && Admissible(spec, name, maxRetries) && RollsBack(w, spec, a)
    ensures var r := Reconcile(w, spec, a);
            && Undoing(r, spec.generation, w.request.value.digest) && r.mutations == w.mutations + 1
            && r.requestBytes == w.successBytes && r.successBytes == w.successBytes
            && r.lastSuccessful == w.lastSuccessful && r.retiring == ""
            && r.lastRollback.value.failedVersion == w.request.value.version
  {
    var r := Reconcile(w, spec, a);
    assert r == Resume(w, spec, a);
    if w.request.value.failure != "" {
      FailureUndoes(w, spec, w.request.value, a, name, maxRetries);
    } else {
      var request := Refreshed(w.request.value, a.reply);
      var polled := w.(request := Some(request));
      assert r == HandleFailure(polled, spec, Cleaned(request, a.deleteOk), a);
      FailureUndoes(polled, spec, Cleaned(request, a.deleteOk), a, name, maxRetries);
    }
  }

  /** From a failing target to rest. After the reconcile that sees the failure, for as long as
      generation and digest stay, exactly one more request is ever sent, that of the rollback, and
      every later state is at rest for the failed target or still rolling it back. */
  lemma FailedTargetComesToRest(w: World, spec: Spec, a: Answers, run: seq<World>, i: nat, name: string,
      maxRetries: nat)
    requires Inv(w, name, maxRetries) && Admissible(spec, name, maxRetries) && RollsBack(w, spec, a)
    requires w.request.value.digest == spec.digest
    requires UnhinderedRun(run, spec.generation, spec.digest, name, maxRetries) && i < |run|
    requires run[0] == Reconcile(w, spec, a)
    ensures run[i].mutations == w.mutations + 1
    ensures Undoing(run[i], spec.generation, spec.digest) || Quiet(run[i], spec.generation, spec.digest)
  {
    FailureIsUndone(w, spec, a, name, maxRetries);
    ReconcileKeeps(w, spec, a, name, maxRetries);
    UndoingRun(run, i, spec.generation, spec.digest, name, maxRetries);
  }

  /** NiFi answers, is done, and every call goes through. */
  predicate Serves(a: Answers) {
    && a.pollOk && a.reply.complete && a.reply.failure == "" && a.groupOk && a.metadataOk && a.deleteOk
    && a.finalizeOk
  }

  /** Two served reconciles after the failure the deployment is at rest at the last success, and a
      further reconcile for the failed target changes nothing at all. */
  lemma FailedTargetRestsInTwo(w: World, spec: Spec, a: Answers, first: Answers, second: Answers, later: Answers,
      name: string, maxRetries: nat)
    requires Inv(w, name, maxRetries) && Admissible(spec, name, maxRetries) && RollsBack(w, spec, a)
    requires w.request.value.digest == spec.digest && Serves(first) && Serves(second)
    ensures var r := Reconcile(Reconcile(Reconcile(w, spec, a), spec, first), spec, second);
            && Quiet(r, spec.generation, spec.digest) && r.mutations == w.mutations + 1
            && r.artifactDigest == w.lastSuccessful.value.digest && r.successBytes == w.successBytes
            && Reconcile(r, spec, later) == r
  {
    var failed := Reconcile(w, spec, a);
    var done := Reconcile(failed, spec, first);
    var r := Reconcile(done, spec, second);
    FailureIsUndone(w, spec, a, name, maxRetries);
    ReconcileKeeps(w, spec, a, name, maxRetries);
    ReconcileKeeps(failed, spec, first, name, maxRetries);
    ReconcileKeeps(done, spec, second, name, maxRetries);
    UndoingStep(failed, spec, first, spec.generation, spec.digest, name, maxRetries);
    if Quiet(done, spec.generation, spec.digest) {
      QuietStays(done, spec, second);
    } else {
      UndoingStep(done, spec, second, spec.generation, spec.digest, name, maxRetries);
    }
    QuietStays(r, spec, later);
  }
}
