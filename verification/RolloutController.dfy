/** The deployment controller as it runs: handlers that change the in-memory status step by step,
    delete and create ConfigMaps as they go, and write the status back at the end, or return an
    error and write nothing. Each is proved to persist exactly the protocol step. */
module RolloutController {
  import opened Text
  import opened Rollout

  method Retained(kept: seq<Entry>, lastSuccessful: Option<Entry>) returns (retained: set<string>)
    ensures retained == Names(kept) + Protected(lastSuccessful)
  {
    retained := {};
    for i := 0 to |kept|
      invariant retained == Names(kept[..i])
    {
      assert kept[..i + 1][..i] == kept[..i];
      if kept[i].configMap != "" { retained := retained + {kept[i].configMap}; }
    }
    assert kept[..|kept|] == kept;
    if lastSuccessful.Some? && lastSuccessful.value.configMap != "" {
      retained := retained + {lastSuccessful.value.configMap};
    }
  }

  method DeleteUnretained(store: map<string, string>, removed: seq<Entry>, retained: set<string>,
      undeleted: set<string>) returns (left: map<string, string>)
    ensures left == store - (Names(removed) - retained - undeleted)
  {
    left := store;
    for i := 0 to |removed|
      invariant left == store - (Names(removed[..i]) - retained - undeleted)
    {
      assert removed[..i + 1][..i] == removed[..i];
      var name := removed[i].configMap;
      if name == "" || name in retained { continue; }
      if name !in undeleted { left := left - {name}; }
    }
    assert removed[..|removed|] == removed;
  }

  class Deployment {
    // The in-memory status.
    var processGroup: string
    var deployedVersion: string
    var artifactDigest: string
    var retiring: string
    var request: Option<Request>
    var active: Option<Active>
    var lastRollback: Option<Rollback>
    var lastSuccessful: Option<Entry>
    var history: seq<Entry>
    // The ConfigMaps, and the history variables of the protocol.
    var store: map<string, string>
    var successBytes: string
    var requestBytes: string
    var mutations: nat
    var settlements: nat
    var missing: bool
    /** The status as last written to the API server. */
    var saved: World

    constructor (w: World)
      ensures Current() == w == Persisted()
    {
      processGroup, deployedVersion, artifactDigest, retiring := w.processGroup, w.deployedVersion, w.artifactDigest,
          w.retiring;
      request, active, lastRollback, lastSuccessful, history := w.request, w.active, w.lastRollback, w.lastSuccessful,
          w.history;
      store, successBytes, requestBytes := w.store, w.successBytes, w.requestBytes;
      mutations, settlements, missing, saved := w.mutations, w.settlements, w.missing, w;
    }

    function Current(): (w: World)
      reads this
    {
      World(processGroup, deployedVersion, artifactDigest, retiring, request, active, lastRollback, lastSuccessful,
          history, store,
            successBytes, requestBytes, mutations, settlements, missing)
    }

    /** What the next reconcile finds: the status last written, and the outside world as it is. */
    function Persisted(): (w: World)
      reads this
    {
      saved.(store := store, mutations := mutations)
    }

    method WriteStatus()
      modifies this`saved
      ensures saved == Current() == Persisted()
    {
      saved := Current();
    }

    // --- history -------------------------------------------------------------------------------

    method TrimHistory(limit: nat, undeleted: set<string>)
      modifies this`history, this`store
      ensures Current() == Trim(old(Current()), limit, undeleted)
    {
      var n := |history|;
      if n <= limit { return; }
      var removed, kept := history[..n - limit], history[n - limit..];
      history := kept;
      var retained := Retained(kept, lastSuccessful);
      var left := DeleteUnretained(store, removed, retained, undeleted);
      assert Names(removed) - retained == Names(removed) - Names(kept) - Protected(lastSuccessful);
      store := left;
    }

    method Persist(name: string, snapshot: string, storeOk: bool) returns (ok: bool)
      modifies this`store
      ensures ok == PersistSnapshot(old(Current()).store, name, snapshot, storeOk).Some?
      ensures Current() == if ok
              then old(Current()).(store := PersistSnapshot(old(Current()).store, name, snapshot, storeOk).value)
                  else old(Current())
    {
      if name !in store {
        if storeOk { store := store[name := snapshot]; }
        return storeOk;
      }
      return store[name] == snapshot;
    }

    method AddEntry(entry: Entry)
      modifies this`history
      ensures Current() == old(Current()).(history := AppendEntry(old(history), entry))
    {
      history := AppendEntry(history, entry);
    }

    method SetSuccess(entry: Entry, bytes: string)
      modifies this`lastSuccessful, this`successBytes
      ensures Current() == old(Current()).(lastSuccessful := Some(entry), successBytes := bytes)
    {
      lastSuccessful, successBytes := Some(entry), bytes;
    }

    method Record(spec: Spec, snapshot: string, version: string, digest: string, verdict: Verdict, storeOk: bool)
        returns (ok: bool)
      modifies this`store, this`history, this`lastSuccessful, this`successBytes
      ensures ok == RecordSuccess(old(Current()), spec, snapshot, version, digest, verdict, storeOk).Some?
      ensures Current() == if ok
              then RecordSuccess(old(Current()), spec, snapshot, version, digest, verdict, storeOk).value
                  else old(Current())
    {
      var name := ConfigMapName(spec.name, digest);
      ok := Persist(name, snapshot, storeOk);
      if !ok { return; }
      var entry := Entry(version, digest, name, verdict, "");
      AddEntry(entry);
      SetSuccess(entry, snapshot);
    }

    // --- rollout records -----------------------------------------------------------------------

    method Ensure(spec: Spec, version: string, digest: string, operation: Operation)
      modifies this`active
      ensures Current() == EnsureActive(old(Current()), spec, version, digest, operation)
    {
      if active.Some? && active.value.digest == digest && active.value.operation == operation { return; }
      active := Some(Active(Preparing, operation, version, digest, deployedVersion, artifactDigest, spec.stopAll, 0));
    }

    method EnterPhase(phase: Phase)
      requires active.Some?
      modifies this`active
      ensures Current() == old(Current()).(active := Some(old(Current()).active.value.(phase := phase)))
    {
      active := Some(active.value.(phase := phase));
    }

    method SetDeployed(group: string, version: string, digest: string)
      modifies this`processGroup, this`deployedVersion, this`artifactDigest
      ensures Current() == old(Current()).(processGroup := group, deployedVersion := version, artifactDigest := digest)
    {
      processGroup, deployedVersion, artifactDigest := group, version, digest;
    }

    method ClearRollout()
      modifies this`request, this`active
      ensures Current() == old(Current()).(request := None, active := None)
    {
      request, active := None, None;
    }

    method SetActive(rollout: Option<Active>)
      modifies this`active
      ensures Current() == old(Current()).(active := rollout)
    {
      active := rollout;
    }

    method NoteMutations(n: nat)
      modifies this`mutations
      ensures Current() == old(Current()).(mutations := old(mutations) + n)
    {
      mutations := mutations + n;
    }

    method SetRequest(latest: Option<Request>)
      modifies this`request
      ensures Current() == old(Current()).(request := latest)
    {
      request := latest;
    }

    /** NiFi accepted a request with these bytes. */
    method NoteSent(sent: Request, bytes: string)
      modifies this`request, this`requestBytes, this`mutations
      ensures Current()
              == old(Current()).(request := Some(sent), requestBytes := bytes, mutations := old(mutations) + 1)
    {
      request, requestBytes, mutations := Some(sent), bytes, mutations + 1;
    }

    /** The status of a deployment in sync, written. */
    method WriteSynced(spec: Spec, group: string, version: string, digest: string)
      modifies this
      ensures saved == Current() == Synced(old(Current()), spec, group, version, digest)
    {
      SetDeployed(group, version, digest);
      ClearRollout();
      ghost var cleared := Current();
      if lastRollback.Some? && spec.generation > lastRollback.value.failedGeneration { lastRollback := None; }
      assert Current() == cleared.(lastRollback := lastRollback);
      settlements := settlements + 1;
      WriteStatus();
    }

    /** Returns false, with nothing changed, when the snapshot cannot be recorded. */
    method MarkSynced(spec: Spec, group: string, version: string, digest: string, snapshot: string, a: Answers)
        returns (ok: bool)
      modifies this
      ensures ok == MarkInSync(old(Current()), spec, group, version, digest, snapshot, a).Some?
      ensures ok ==>
                Some(Current()) == MarkInSync(old(Current()), spec, group, version, digest, snapshot, a)
                && saved == Current()
      ensures !ok ==> unchanged(this)
    {
      ok := true;
      if lastSuccessful.None? || lastSuccessful.value.digest != digest {
        ok := Record(spec, snapshot, version, digest, Succeeded, a.storeOk);
        if !ok { return; }
      }
      TrimHistory(Limit(spec), a.undeleted);
      WriteSynced(spec, group, version, digest);
    }

    /** The status of a deployment rolled back, written. */
    method WriteRestored(rollback: Rollback, entry: Entry)
      modifies this
      ensures saved == Current() == Restored(old(Current()), rollback, entry)
    {
      SetDeployed(processGroup, entry.version, entry.digest);
      ClearRollout();
      ghost var cleared := Current();
      lastRollback := Some(rollback);
      assert Current() == cleared.(lastRollback := lastRollback);
      settlements := settlements + 1;
      WriteStatus();
    }

    method MarkRestored(spec: Spec, entry: Entry, snapshot: string, a: Answers) returns (ok: bool)
      modifies this
      ensures ok == MarkRolledBack(old(Current()), spec, entry, snapshot, a).Some?
      ensures ok ==> Some(Current()) == MarkRolledBack(old(Current()), spec, entry, snapshot, a) && saved == Current()
      ensures !ok ==> unchanged(this)
    {
      var generation, version, digest := spec.generation, "", "";
      if active.Some? { version, digest := active.value.previousVersion, active.value.previousDigest; }
      if lastRollback.Some? {
        var last := lastRollback.value;
        generation, version, digest := last.failedGeneration, last.failedVersion, last.failedDigest;
      }
      var rollback := Rollback(generation, version, digest, true);
      assert rollback == RollbackOf(Current(), spec);
      ok := Record(spec, snapshot, entry.version, entry.digest, RolledBack, a.storeOk);
      if !ok { return; }
      TrimHistory(Limit(spec), a.undeleted);
      WriteRestored(rollback, entry);
    }

    method RetryIfAllowed(spec: Spec) returns (retried: bool)
      modifies this
      ensures retried == RetryAllowed(old(Current()), spec)
      ensures retried ==> Current() == Retry(old(Current())) && saved == Current()
      ensures !retried ==> unchanged(this)
    {
      if active.None? { return false; }
      var attempt := active.value;
      if attempt.operation != InPlace || spec.maxRetries <= 0 || attempt.retries >= spec.maxRetries { return false; }
      active, request := Some(attempt.(retries := attempt.retries + 1, phase := Preparing)), None;
      WriteStatus();
      return true;
    }

    method BookFailure(spec: Spec, f: Request, a: Answers)
      modifies this`history, this`store
      ensures Current() == Booked(old(Current()), spec, f, a)
    {
      AddEntry(Entry(f.version, f.digest, f.configMap, Failed, f.failure));
      TrimHistory(Limit(spec), a.undeleted);
    }

    method WriteFailed(f: Request, over: bool)
      modifies this
      ensures saved == Current() == old(Current()).(request := Some(f), active := if over then None else old(active))
    {
      request := Some(f);
      if over { active := None; }
      WriteStatus();
    }

    /** handleFlowReplaceFailure; every way out is a status write. */
    method HandleFailed(spec: Spec, failed: Request, a: Answers)
      modifies this
      ensures saved == Current() == HandleFailure(old(Current()), spec, failed, a)
      decreases if failed.operation == Restore then 0 else 1
    {
      var f := failed;
      if f.id != "" && a.cleanupOk { f := f.(id := ""); }
      assert f == Cleaned(failed, a.cleanupOk);
      BookFailure(spec, f, a);
      if f.operation == Restore { WriteFailed(f, true); return; }
      var retried := RetryIfAllowed(spec);
      if retried { return; }
      var snapshot := RollbackSnapshot(Current());
      if !spec.rollbackEnabled || snapshot.None? { WriteFailed(f, true); return; }
      if !a.rollbackGroupOk || !a.rollbackCreateOk || a.rollbackReply.id == "" { WriteFailed(f, false); return; }
      SendBack(spec, f, a.rollbackReply, snapshot.value);
      if a.rollbackReply.failure != "" {
        HandleFailed(spec, request.value, a.(cleanupOk := a.cleanupAgainOk, undeleted := a.undeletedAgain));
      } else {
        WriteStatus();
      }
    }

    method SendBack(spec: Spec, f: Request, reply: Reply, snapshot: string)
      requires RollbackSnapshot(Current()) == Some(snapshot)
      modifies this`lastRollback, this`active, this`request, this`requestBytes, this`mutations
      ensures Current() == SendRollback(old(Current()), spec, f, reply)
    {
      var target := lastSuccessful.value;
      lastRollback := Some(Rollback(spec.generation, f.version, f.digest, false));
      assert Current() == old(Current()).(lastRollback := lastRollback);
      Ensure(spec, target.version, target.digest, Restore);
      ghost var started := Current();
      active := Some(active.value.(phase := RollingBack, stopsAll := spec.stopAll));
      assert Current() == started.(active := active);
      NoteSent(Request(reply.id, reply.complete, reply.failure, target.digest, target.version, Restore,
          target.configMap), snapshot);
    }

    // --- one reconcile -------------------------------------------------------------------------

    method Judge(spec: Spec, a: Answers)
      requires request.Some?
      modifies this
      ensures Persisted() == Judged(old(Current()), spec, a)
    {
      if request.value.failure == "" { WriteStatus(); return; }
      var failed := request.value;
      if a.deleteOk { failed := failed.(id := ""); }
      HandleFailed(spec, failed, a);
    }

    method Poll(spec: Spec, a: Answers)
      requires Outstanding(Current()) && saved == Current()
      modifies this
      ensures Persisted() == PollRequest(old(Current()), spec, a)
    {
      if !a.pollOk { return; }
      var polled := request.value;
      if a.reply.id != "" { polled := polled.(id := a.reply.id); }
      polled := polled.(complete := a.reply.complete, failure := a.reply.failure);
      SetRequest(Some(polled));
      Judge(spec, a);
    }

    method Finish(spec: Spec, version: string, digest: string, snapshot: string, a: Answers)
      modifies this
      ensures Persisted() == FinishRollout(old(Persisted()), old(Current()), spec, version, digest, snapshot, a)
    {
      if !a.finishOk { WriteStatus(); return; }
      var ok := MarkSynced(spec, processGroup, version, digest, snapshot, a);
    }

    method Complete(spec: Spec, a: Answers)
      requires Outstanding(Current()) && saved == Current()
      modifies this
      ensures Persisted() == CompleteReplace(old(Current()), spec, a)
    {
      if !a.groupOk || !a.metadataOk || !a.deleteOk { return; }
      var finished := request.value.(complete := true, id := "");
      SetRequest(Some(finished));
      if !a.finalizeOk { WriteStatus(); return; }
      var snapshot := spec.snapshot;
      if finished.configMap != "" {
        var checkpoint := ReadSnapshot(store, finished.configMap);
        if checkpoint.None? { missing := true; WriteStatus(); return; }
        snapshot := checkpoint.value;
      }
      if finished.operation == Restore {
        var target := RollbackSnapshot(Current());
        if target.None? { missing := true; WriteStatus(); return; }
        var ok := MarkRestored(spec, lastSuccessful.value, target.value, a);
      } else if spec.readinessGate {
        Ensure(spec, finished.version, finished.digest, InPlace);
        EnterPhase(AwaitingReadiness);
        SetRequest(None);
        WriteStatus();
      } else {
        Finish(spec, finished.version, finished.digest, snapshot, a);
      }
    }

    method Await(spec: Spec, a: Answers)
      requires active.Some? && saved == Current()
      modifies this
      ensures Persisted() == AwaitGate(old(Current()), spec, a)
    {
      if a.gate == GateReady {
        Finish(spec, spec.version, spec.digest, spec.snapshot, a);
      } else if a.gate == GateTimedOut {
        var retried := RetryIfAllowed(spec);
        if retried { return; }
        active := None;
        WriteStatus();
      }
    }

    method SendStored(spec: Spec, name: string, a: Answers)
      modifies this
      ensures Persisted() == Dispatch(old(Current()), spec, name, a)
    {
      if !a.createOk || a.reply.id == "" { WriteStatus(); return; }
      NoteSent(Request(a.reply.id, a.reply.complete, a.reply.failure, spec.digest, spec.version, InPlace, name),
          spec.snapshot);
      assert Current() == Requested(old(Current()), spec, name, a.reply);
      Judge(spec, a);
    }

    method Send(spec: Spec, a: Answers)
      requires active.Some?
      modifies this
      ensures Persisted() == SendReplace(old(Current()), spec, a)
    {
      var name := ConfigMapName(spec.name, spec.digest);
      var ok := Persist(name, spec.snapshot, a.storeOk);
      if !ok { WriteStatus(); return; }
      EnterPhase(Replacing);
      SendStored(spec, name, a);
    }

    method Start(spec: Spec, a: Answers)
      requires saved == Current()
      modifies this
      ensures Persisted() == StartReplace(old(Current()), spec, a)
    {
      Ensure(spec, spec.version, spec.digest, InPlace);
      if active.value.phase == Preparing {
        if active.value.stopsAll {
          if a.preparation.Stopped? { EnterPhase(Prepared); }
          if a.preparation.Stopped? || a.preparation.written { WriteStatus(); }
          return;
        }
        EnterPhase(Prepared);
      }
      Send(spec, a);
    }

    method PromoteCandidate(spec: Spec, candidate: GroupId, blue: string, a: Answers)
      modifies this
      ensures Persisted() == Promote(old(Persisted()), old(Current()), spec, candidate, blue, a)
    {
      retiring, mutations := blue, mutations + 1;
      assert Current() == Retiring(old(Current()), blue);
      var ok := MarkSynced(spec, candidate, spec.version, spec.digest, spec.snapshot, a);
    }

    method FinishSwitchBack(spec: Spec, reason: string, a: Answers)
      requires active.Some?
      modifies this
      ensures Persisted() == SwitchBack(old(Current()), spec, reason, a)
      ensures Persisted().lastRollback
              == Some(Rollback(spec.generation, old(active).value.version, old(active).value.digest, true))
    {
      var target := active.value;
      lastRollback, active := Some(Rollback(spec.generation, target.version, target.digest, true)), None;
      ghost var ended := Current();
      assert ended == old(Current()).(lastRollback := lastRollback, active := None);
      AddEntry(Entry(target.version, target.digest, "", Failed, reason));
      assert Current() == RecordFailure(ended, target.version, target.digest, "", reason);
      TrimHistory(Limit(spec), a.undeleted);
      WriteStatus();
    }

    method MoveBlueGreen(spec: Spec, a: Answers)
      requires active.Some?
      modifies this
      ensures Persisted() == BlueGreenMove(old(Persisted()), old(Current()), spec, a)
    {
      match a.blueGreen
      case Busy(starts) =>
        NoteMutations(if starts then 1 else 0);
        WriteStatus();
      case Adopted(candidate) =>
        SetDeployed(candidate, deployedVersion, artifactDigest);
        NoteMutations(1);
        WriteStatus();
      case Promoted(candidate, blue) =>
        PromoteCandidate(spec, candidate, blue, a);
      case SwitchedBack(reason) =>
        FinishSwitchBack(spec, reason, a);
      case Aborted =>
        SetActive(None);
        WriteStatus();
    }

    method StepBlueGreen(spec: Spec, a: Answers)
      requires saved == Current()
      modifies this
      ensures Persisted() == BlueGreenStep(old(Current()), spec, a)
    {
      Ensure(spec, spec.version, spec.digest, BlueGreen);
      assert Persisted() == old(Current());
      MoveBlueGreen(spec, a);
    }

    method Import(spec: Spec, a: Answers)
      modifies this
      ensures Persisted() == ImportFirst(old(Current()), spec, a)
    {
      Ensure(spec, spec.version, spec.digest, InPlace);
      if a.importOk {
        NoteMutations(1);
        if a.importedGroup != "" {
          SetDeployed(a.importedGroup, spec.version, spec.digest);
          SetRequest(None);
        }
      }
      WriteStatus();
    }

    method Settle(spec: Spec, statusChanged: bool, a: Answers)
      requires saved == Current()
      modifies this
      ensures Persisted() == Steady(old(Current()), spec, statusChanged, a)
    {
      if !a.metadataOk { return; }
      var needsCompletion := lastSuccessful.None? || lastSuccessful.value.digest != spec.digest || active.Some?;
      if needsCompletion && !a.finalizeOk { return; }
      if needsCompletion || statusChanged {
        var ok := MarkSynced(spec, processGroup, spec.version, spec.digest, spec.snapshot, a);
      }
    }

    method ResumeRequest(spec: Spec, a: Answers)
      requires Outstanding(Current()) && saved == Current()
      modifies this
      ensures Persisted() == Resume(old(Current()), spec, a)
    {
      if request.value.failure != "" {
        HandleFailed(spec, request.value, a);
      } else if request.value.complete {
        Complete(spec, a);
      } else {
        Poll(spec, a);
      }
    }

    method CompareWithTarget(spec: Spec, a: Answers)
      requires saved == Current()
      modifies this
      ensures Persisted() == Compare(old(Current()), spec, a)
    {
      if processGroup == "" {
        Import(spec, a);
      } else if a.groupOk && !Blocked(Current(), spec) {
        if artifactDigest == spec.digest && deployedVersion == spec.version && a.drift != ForceReplace {
          if a.drift.Matches? { Settle(spec, a.drift.statusChanged, a); }
        } else if spec.blueGreen {
          StepBlueGreen(spec, a);
        } else {
          Start(spec, a);
        }
      }
    }

    /** One reconcile persists exactly the protocol step. */
    method ReconcileDeployment(spec: Spec, a: Answers)
      requires saved == Current()
      modifies this
      ensures Persisted() == Reconcile(old(Current()), spec, a)
    {
      if retiring != "" {
        retiring := "";
        WriteStatus();
      } else if spec.cancel && active.Some? {
        if active.value.operation != BlueGreen { request, active := None, None; }
        WriteStatus();
      } else if AwaitsReadiness(Current()) {
        Await(spec, a);
      } else if request.Some? && request.value.id != "" {
        ResumeRequest(spec, a);
      } else {
        CompareWithTarget(spec, a);
      }
    }
  }
}
