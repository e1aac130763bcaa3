/** Further laws of whole rollouts: a completed rollback is final for the target that failed, and
    what the hypotheses on status writes and digests are worth. */
module RolloutRuns {
  import opened Text
  import opened Rollout
  import opened RolloutLaws

  // --- quiescence after a rollback -------------------------------------------------------------

  /** Nothing is in flight and the rollback of this target is on record. */
  predicate Quiet(w: World, generation: int, digest: string) {
    && w.processGroup != "" && w.active.None? && !Outstanding(w)
    && w.lastRollback.Some? && w.lastRollback.value.completed
    && w.lastRollback.value.failedGeneration == generation && w.lastRollback.value.failedDigest == digest
  }

  /** The reconcile that writes a completed rollback into the status. */
  predicate CompletesRollback(w: World, r: World) {
    r.lastRollback.Some? && r.lastRollback.value.completed && r.lastRollback != w.lastRollback
  }

  /** The rollback that was sent is marked complete and is otherwise the one on record. */
  predicate Confirms(w: World, r: World) {
    && w.request.Some? && w.request.value.operation == Restore && w.lastRollback.Some?
    && r.lastRollback == Some(w.lastRollback.value.(completed := true))
    && Quiet(r, w.lastRollback.value.failedGeneration, w.lastRollback.value.failedDigest)
  }

  lemma InSyncClears(w: World, spec: Spec, group: string, version: string, digest: string, snapshot: string, a: Answers)
    ensures var r := MarkInSync(w, spec, group, version, digest, snapshot, a);
            r.Some? ==>
              r.value.request.None? && r.value.active.None?
              && (r.value.lastRollback == w.lastRollback || r.value.lastRollback.None?)
  {
  }

  /** Only a finished rollback request completes an in-place rollback. */
  lemma CompleteIsQuiet(w: World, spec: Spec, a: Answers, name: string, maxRetries: nat)
    requires Inv(w, name, maxRetries) && Admissible(spec, name, maxRetries)
    requires Outstanding(w) && w.request.value.failure == "" && !AwaitsReadiness(w)
    ensures var r := CompleteReplace(w, spec, a);
            CompletesRollback(w, r) ==> Confirms(w, r)
  {
    var status := w.request.value.(complete := true, id := "");
    var w1 := w.(request := Some(status));
    var r := CompleteReplace(w, spec, a);
    assert ReadSnapshot(w.store, status.configMap) == Some(w.requestBytes);
    if status.operation == Restore {
      RolledBackKeeps(w1, spec, a, name, maxRetries);
      var done := MarkRolledBack(w1, spec, w1.lastSuccessful.value, w1.successBytes, a);
      assert r == w || r == w1 || r == done.value;
    } else {
      InSyncClears(w1, spec, w1.processGroup, status.version, status.digest, w.requestBytes, a);
    }
  }

  lemma PromoteClears(before: World, w: World, spec: Spec, candidate: GroupId, blue: string, a: Answers)
    ensures var r := Promote(before, w, spec, candidate, blue, a);
            || (r.request.None? && r.active.None? && (r.lastRollback == w.lastRollback || r.lastRollback.None?))
            || r == before.(mutations := r.mutations)
  {
    InSyncClears(Retiring(w, blue), spec, candidate, spec.version, spec.digest, spec.snapshot, a);
  }

  lemma SwitchBackClears(w: World, spec: Spec, reason: string, a: Answers)
    requires w.active.Some?
    ensures var r := SwitchBack(w, spec, reason, a);
            && r.active.None? && r.request == w.request && r.processGroup == w.processGroup
            && r.lastRollback == Some(Rollback(spec.generation, w.active.value.version, w.active.value.digest, true))
  {
  }

  /** What a BlueGreen move leaves in flight: nothing but the BlueGreen rollout itself. */
  lemma MoveLeaves(before: World, w: World, spec: Spec, a: Answers)
    requires w.active.Some? && w.active.value.operation == BlueGreen && w == before.(active := w.active)
    ensures var r := BlueGreenMove(before, w, spec, a);
            && (r.request == w.request || r.request.None?)
            && (r.active == before.active || r.active == w.active || r.active.None?)
            && (r.lastRollback == w.lastRollback || r.lastRollback.None?
                || (a.blueGreen.SwitchedBack? && r.active.None? && r.request == w.request
                    && r.processGroup == w.processGroup
                    && r.lastRollback
                       == Some(Rollback(spec.generation, w.active.value.version, w.active.value.digest, true))))
  {
    var r := BlueGreenMove(before, w, spec, a);
    match a.blueGreen
    case Promoted(candidate, blue) =>
      assert r == Promote(before, w, spec, candidate, blue, a);
      PromoteClears(before, w, spec, candidate, blue, a);
    case SwitchedBack(reason) =>
      assert r == SwitchBack(w, spec, reason, a);
      SwitchBackClears(w, spec, reason, a);
    case Busy(_) =>
      assert r == w.(mutations := r.mutations);
    case Adopted(candidate) =>
      assert r == w.(processGroup := candidate, mutations := r.mutations);
    case Aborted =>
      assert r == w.(active := None);
  }

  lemma BlueGreenIsQuiet(w: World, spec: Spec, a: Answers)
    requires w.processGroup != "" && !Outstanding(w)
    ensures var r := BlueGreenStep(w, spec, a);
            CompletesRollback(w, r) ==> a.blueGreen.SwitchedBack? && Quiet(r, spec.generation, spec.digest)
  {
    MoveLeaves(w, EnsureActive(w, spec, spec.version, spec.digest, BlueGreen), spec, a);
  }

  lemma StartCompletesNone(w: World, spec: Spec, a: Answers, name: string, maxRetries: nat)
    requires Inv(w, name, maxRetries) && Admissible(spec, name, maxRetries)
    requires !Outstanding(w) && !AwaitsReadiness(w) && w.processGroup != ""
    ensures !CompletesRollback(w, StartReplace(w, spec, a))
  {
    EnsureKeeps(w, spec, InPlace, name, maxRetries);
    var w1 := EnsureActive(w, spec, spec.version, spec.digest, InPlace);
    var prepared := w1.(active := Some(w1.active.value.(phase := Prepared)));
    assert Settled(prepared, name, maxRetries);
    SendCompletesNone(w1, spec, a, name, maxRetries);
    SendCompletesNone(prepared, spec, a, name, maxRetries);
  }

  lemma SendCompletesNone(w: World, spec: Spec, a: Answers, name: string, maxRetries: nat)
    requires Settled(w, name, maxRetries) && Admissible(spec, name, maxRetries)
    requires w.active.Some? && !Outstanding(w) && !AwaitsReadiness(w)
    ensures !CompletesRollback(w, SendReplace(w, spec, a))
  {
    var cm := ConfigMapName(spec.name, spec.digest);
    var store := PersistSnapshot(w.store, cm, spec.snapshot, a.storeOk);
    PersistKeeps(w, spec, a.storeOk, name);
    if store.Some? && a.reply.failure != "" {
      SentKeeps(w, store.value, cm, spec, a.reply, name, maxRetries);
      var w2 :=
          Requested(w.(store := store.value, active := Some(w.active.value.(phase := Replacing))), spec, cm, a.reply);
      FailureKeeps(w2, spec, Cleaned(w2.request.value, a.deleteOk), a, name, maxRetries);
    }
  }

  /** However a rollback completes, the deployment is then at rest for the target that failed: in
      place that is the one named when the rollback request was sent, BlueGreen it is the spec's. */
  lemma CompletedRollbackIsQuiet(w: World, spec: Spec, a: Answers, name: string, maxRetries: nat)
    requires Inv(w, name, maxRetries) && Admissible(spec, name, maxRetries)
    ensures var r := Reconcile(w, spec, a);
            CompletesRollback(w, r) ==>
              if Outstanding(w) then
                && w.request.value.operation == Restore && w.lastRollback.Some?
                && r.lastRollback == Some(w.lastRollback.value.(completed := true))
                && Quiet(r, w.lastRollback.value.failedGeneration, w.lastRollback.value.failedDigest)
              else a.blueGreen.SwitchedBack? && Quiet(r, spec.generation, spec.digest)
  {
    var r := Reconcile(w, spec, a);
    if w.retiring != "" || (spec.cancel && w.active.Some?) {
      assert r.lastRollback == w.lastRollback;
    } else if AwaitsReadiness(w) {
      InSyncClears(w, spec, w.processGroup, spec.version, spec.digest, spec.snapshot, a);
    } else if Outstanding(w) {
      assert r == Resume(w, spec, a);
      ResumeIsQuiet(w, spec, a, name, maxRetries);
    } else {
      assert r == Compare(w, spec, a);
      CompareIsQuiet(w, spec, a, name, maxRetries);
    }
  }

  lemma ResumeIsQuiet(w: World, spec: Spec, a: Answers, name: string, maxRetries: nat)
    requires Inv(w, name, maxRetries) && Admissible(spec, name, maxRetries) && Outstanding(w) && !AwaitsReadiness(w)
    ensures var r := Resume(w, spec, a);
            CompletesRollback(w, r) ==> Confirms(w, r)
  {
    var r := Resume(w, spec, a);
    if w.request.value.failure != "" {
      FailureKeeps(w, spec, w.request.value, a, name, maxRetries);
    } else if w.request.value.complete {
      assert r == CompleteReplace(w, spec, a);
      CompleteIsQuiet(w, spec, a, name, maxRetries);
    } else {
      var request := Refreshed(w.request.value, a.reply);
      assert r == PollRequest(w, spec, a);
      if a.pollOk && request.failure != "" {
        FailureKeeps(w.(request := Some(request)), spec, Cleaned(request, a.deleteOk), a, name, maxRetries);
      }
    }
  }

  lemma CompareIsQuiet(w: World, spec: Spec, a: Answers, name: string, maxRetries: nat)
    requires Inv(w, name, maxRetries) && Admissible(spec, name, maxRetries) && !Outstanding(w) && !AwaitsReadiness(w)
    ensures var r := Compare(w, spec, a);
            CompletesRollback(w, r) ==> a.blueGreen.SwitchedBack? && Quiet(r, spec.generation, spec.digest)
  {
    var r := Compare(w, spec, a);
    if w.processGroup == "" || !a.groupOk || Blocked(w, spec) {
      assert r.lastRollback == w.lastRollback;
    } else if w.artifactDigest == spec.digest && w.deployedVersion == spec.version && a.drift != ForceReplace {
      InSyncClears(w, spec, w.processGroup, spec.version, spec.digest, spec.snapshot, a);
    } else if spec.blueGreen {
      assert r == BlueGreenStep(w, spec, a);
      BlueGreenIsQuiet(w, spec, a);
    } else {
      assert r == StartReplace(w, spec, a);
      StartCompletesNone(w, spec, a, name, maxRetries);
    }
  }

  /** A run of reconciles that all see the same generation and source digest. */
  ghost predicate SameTarget(run: seq<World>, generation: int, digest: string) {
    && |run| > 0
    && forall i :: 0 <= i < |run| - 1 ==>
      EnvStep(run[i], run[i + 1]) || SameTargetStep(run[i], run[i + 1], generation, digest)
  }

  ghost predicate SameTargetStep(w: World, v: World, generation: int, digest: string) {
    exists spec: Spec, a: Answers ::
      spec.generation == generation && spec.digest == digest && v == Reconcile(w, spec, a)
  }

  /** A deployment at rest stays as it is in every reconcile for the target that failed. */
  lemma QuietStays(w: World, spec: Spec, a: Answers)
    requires Quiet(w, spec.generation, spec.digest)
    ensures Reconcile(w, spec, a) == w.(retiring := "")
  {
    var r := Reconcile(w, spec, a);
    if w.retiring == "" {
      assert r == Compare(w, spec, a);
      assert Blocked(w, spec);
    }
  }

  /** After a completed rollback, for as long as generation and digest stay those that failed,
      nothing is imported, replaced or started and the deployment stays as the rollback left it. */
  lemma {:induction false} QuiescentAfterRollback(run: seq<World>, i: nat, generation: int, digest: string)
    requires SameTarget(run, generation, digest) && i < |run| && Quiet(run[0], generation, digest)
    ensures Quiet(run[i], generation, digest) && run[i].mutations == run[0].mutations
    ensures run[i] == run[0].(retiring := run[i].retiring, store := run[i].store)
  {
    if i > 0 {
      QuiescentAfterRollback(run, i - 1, generation, digest);
      var w, v := run[i - 1], run[i];
      assert EnvStep(w, run[i - 1 + 1]) || SameTargetStep(w, run[i - 1 + 1], generation, digest);
      if !EnvStep(w, v) {
        var spec: Spec, a: Answers :| spec.generation == generation && spec.digest == digest
        && v == Reconcile(w, spec, a);
        QuietStays(w, spec, a);
      }
    }
  }

  // --- lost status writes ----------------------------------------------------------------------

  /** A reconcile whose final status write is lost: only its ConfigMap changes remain. */
  function WithoutStatusWrite(w: World, r: World): (lost: World) {
    w.(store := r.store)
  }

  /** Losing the status write of a success loses the rollback target exactly if the new entry pushes
      the last entry that names the old target off the history and the deletion goes through. */
  lemma LostWriteLosesTarget(w: World, spec: Spec, a: Answers, name: string, maxRetries: nat)
    requires Inv(w, name, maxRetries) && Admissible(spec, name, maxRetries)
    requires w.lastSuccessful.Some? && w.lastSuccessful.value.digest != spec.digest
    requires MarkInSync(w, spec, w.processGroup, spec.version, spec.digest, spec.snapshot, a).Some?
    ensures var r := MarkInSync(w, spec, w.processGroup, spec.version, spec.digest, spec.snapshot, a).value;
            var old' := w.lastSuccessful.value.configMap;
            var entry := Entry(spec.version, spec.digest, ConfigMapName(name, spec.digest), Succeeded, "");
            RollbackSnapshot(WithoutStatusWrite(w, r)).None?
            <==> old' in Doomed(AppendEntry(w.history, entry), Limit(spec), Some(entry)) - a.undeleted
  {
    var entry := Entry(spec.version, spec.digest, ConfigMapName(name, spec.digest), Succeeded, "");
    var r := MarkInSync(w, spec, w.processGroup, spec.version, spec.digest, spec.snapshot, a).value;
    SyncedStore(w, spec, a);
    ReadAfterRemoval(w, r.store, Doomed(AppendEntry(w.history, entry), Limit(spec), Some(entry)) - a.undeleted);
  }

  /** Recording and trimming leave the old store with the new snapshot, without the doomed names. */
  lemma SyncedStore(w: World, spec: Spec, a: Answers)
    requires w.lastSuccessful.Some? && w.lastSuccessful.value.digest != spec.digest
    requires MarkInSync(w, spec, w.processGroup, spec.version, spec.digest, spec.snapshot, a).Some?
    ensures var r := MarkInSync(w, spec, w.processGroup, spec.version, spec.digest, spec.snapshot, a).value;
            var entry := Entry(spec.version, spec.digest, ConfigMapName(spec.name, spec.digest), Succeeded, "");
            var gone := Doomed(AppendEntry(w.history, entry), Limit(spec), Some(entry)) - a.undeleted;
            forall n :: n in w.store ==> (n in r.store <==> n !in gone) && (n in r.store ==> r.store[n] == w.store[n])
  {
    var recorded := RecordSuccess(w, spec, spec.snapshot, spec.version, spec.digest, Succeeded, a.storeOk).value;
    var entry := Entry(spec.version, spec.digest, ConfigMapName(spec.name, spec.digest), Succeeded, "");
    assert recorded.history == AppendEntry(w.history, entry) && recorded.lastSuccessful == Some(entry);
    assert MarkInSync(w, spec, w.processGroup, spec.version, spec.digest, spec.snapshot, a).value.store
           == Trim(recorded, Limit(spec), a.undeleted).store;
  }

  lemma ReadAfterRemoval(w: World, store: map<string, string>, gone: set<string>)
    requires w.lastSuccessful.Some? && RollbackSnapshot(w).Some?
    requires forall n :: n in w.store ==> (n in store <==> n !in gone) && (n in store ==> store[n] == w.store[n])
    ensures RollbackSnapshot(w.(store := store)).None? <==> w.lastSuccessful.value.configMap in gone
  {
  }

  /** With a history of one entry every success under another name does so. */
  lemma LimitOneLosesTarget(w: World, spec: Spec, a: Answers, name: string, maxRetries: nat)
    requires Inv(w, name, maxRetries) && Admissible(spec, name, maxRetries) && spec.historyLimit == 1
             && a.undeleted == {}
    requires w.lastSuccessful.Some? && w.lastSuccessful.value.digest != spec.digest
             && w.history == [w.lastSuccessful.value]
    requires ConfigMapName(name, spec.digest) != w.lastSuccessful.value.configMap
    requires MarkInSync(w, spec, w.processGroup, spec.version, spec.digest, spec.snapshot, a).Some?
    ensures RollbackSnapshot(WithoutStatusWrite(w,
        MarkInSync(w, spec, w.processGroup, spec.version, spec.digest, spec.snapshot, a).value)).None?
  {
    LostWriteLosesTarget(w, spec, a, name, maxRetries);
    var entry := Entry(spec.version, spec.digest, ConfigMapName(name, spec.digest), Succeeded, "");
    var history := AppendEntry(w.history, entry);
    assert history == [w.lastSuccessful.value, entry];
    NamesExact(history[..1]);
    NamesExact(history[1..]);
  }

  // --- colliding names -------------------------------------------------------------------------

  predicate Hex(s: string) {
    forall i :: 0 <= i < |s| ==> '0' <= s[i] <= '9' || 'a' <= s[i] <= 'f'
  }

  /** Two digests share a ConfigMap name exactly if they share their first twelve hex digits. */
  lemma NamesCollideIff(name: string, p: string, x: string, q: string, y: string)
    requires |p| == 12 && Hex(p) && |q| == 12 && Hex(q)
    ensures ConfigMapName(name, "sha256:" + p + x) == ConfigMapName(name, "sha256:" + q + y) <==> p == q
    ensures |name| <= 42 ==> ConfigMapName(name, "sha256:" + p + x) == name + "-history-" + p
    ensures |ConfigMapName(name, "sha256:" + p + x)| <= 63
  {
    LabelPrefix(p, x);
    LabelPrefix(q, y);
    var base := if |name| > 42 then TrimDashes(name[..42]) else name;
    DashesShorten(name[..if |name| > 42 then 42 else |name|]);
    assert ConfigMapName(name, "sha256:" + p + x) == base + "-history-" + p;
    assert ConfigMapName(name, "sha256:" + q + y) == base + "-history-" + q;
    assert (base + "-history-" + p)[|base| + 9..] == p && (base + "-history-" + q)[|base| + 9..] == q;
  }

  lemma {:induction false} DashesShorten(s: string)
    ensures |TrimDashes(s)| <= |s|
  {
    if s != [] && s[|s| - 1] == '-' {
      DashesShorten(s[..|s| - 1]);
    }
  }

  lemma LabelPrefix(p: string, x: string)
    requires |p| == 12 && Hex(p)
    ensures Truncate(ArtifactLabel("sha256:" + p + x), 12) == p
  {
    var digest := "sha256:" + p + x;
    var lower := Lower(digest);
    assert forall i :: 0 <= i < 7 ==> digest[i] == "sha256:"[i] == lower[i];
    assert lower[..7] == "sha256:";
    assert forall i :: 0 <= i < 12 ==> digest[7 + i] == p[i];
    var value := ReplaceColons(lower[7..]);
    assert forall i :: 0 <= i < 12 ==> value[i] == p[i];
    assert value[..12] == p;
  }

  /** A prepared rollout reaches NiFi if and only if its ConfigMap name is free or already holds
      exactly its snapshot (and the calls succeed): a colliding name stops it before any change. */
  lemma CollisionStopsReplace(w: World, spec: Spec, a: Answers, name: string, maxRetries: nat)
    requires Settled(w, name, maxRetries) && Admissible(spec, name, maxRetries)
    requires w.active.Some? && !Outstanding(w) && !AwaitsReadiness(w)
    ensures var cm := ConfigMapName(name, spec.digest);
            SendReplace(w, spec, a).mutations > w.mutations
            <==> (if cm in w.store then w.store[cm] == spec.snapshot else a.storeOk) && a.createOk && a.reply.id != ""
  {
    var cm := ConfigMapName(spec.name, spec.digest);
    var store := PersistSnapshot(w.store, cm, spec.snapshot, a.storeOk);
    PersistKeeps(w, spec, a.storeOk, name);
    if store.Some? && a.reply.failure != "" {
      SentKeeps(w, store.value, cm, spec, a.reply, name, maxRetries);
      var w2 :=
          Requested(w.(store := store.value, active := Some(w.active.value.(phase := Replacing))), spec, cm, a.reply);
      FailureKeeps(w2, spec, Cleaned(w2.request.value, a.deleteOk), a, name, maxRetries);
    }
  }
}
