/** In-place rollouts, retries, rollback and history (flow_snapshot_controller.go,
    flow_deployment_rollout.go, flow_deployment_readiness.go, flow_deployment_history.go): a
    checkpointed state machine whose rollback target lives in ConfigMaps it also garbage-collects. */
module Rollout {
  import opened Text

  // --- ConfigMap names -------------------------------------------------------------------------

  function Lower(s: string): (r: string) {
    seq(|s|, i requires 0 <= i < |s| => if 'A' <= s[i] <= 'Z' then (s[i] as int + 32) as char else s[i])
  }

  function ReplaceColons(s: string): (r: string) {
    seq(|s|, i requires 0 <= i < |s| => if s[i] == ':' then '-' else s[i])
  }

  function Truncate(s: string, n: nat): (r: string) {
    if |s| > n then s[..n] else s
  }

  function TrimDashes(s: string): (r: string) {
    if s != [] && s[|s| - 1] == '-' then TrimDashes(s[..|s| - 1]) else s
  }

  function ArtifactLabel(digest: string): (r: string)
    ensures |r| <= 63 && (digest == "" ==> r == "unknown")
  {
    var lower := Lower(digest);
    var value := ReplaceColons(if "sha256:" <= lower then lower[7..] else lower);
    if value == "" then "unknown" else Truncate(value, 63)
  }

  /** Only the first twelve characters of the digest enter the name, so names can collide. */
  function ConfigMapName(deployment: string, digest: string): (r: string) {
    var suffix := Truncate(ArtifactLabel(digest), 12);
    var maxBase := 63 - 9 - |suffix|;
    (if |deployment| > maxBase then TrimDashes(deployment[..maxBase]) else deployment) + "-history-" + suffix
  }

  // --- state -----------------------------------------------------------------------------------

  datatype Verdict = Succeeded | RolledBack | Failed

  datatype Entry = Entry(version: string, digest: string, configMap: string, verdict: Verdict, reason: string)

  datatype Operation = InPlace | Restore | BlueGreen

  datatype Request = Request(id: string, complete: bool, failure: string, digest: string, version: string,
      operation: Operation, configMap: string)

  datatype Phase = Preparing | Prepared | Replacing | AwaitingReadiness | RollingBack

  datatype Active = Active(phase: Phase, operation: Operation, version: string, digest: string,
      previousVersion: string, previousDigest: string,
                           stopsAll: bool, retries: int)

  datatype Rollback = Rollback(failedGeneration: int, failedVersion: string, failedDigest: string, completed: bool)

  /** The persisted status, the ConfigMap store, and five history variables: the bytes recorded
      with LastSuccessful, the bytes sent with the latest replace request, how many times NiFi was
      asked to import, replace or start something, how many times the deployment was marked in sync
      or rolled back, and whether a checkpoint or a rollback snapshot could not be found when a
      completed request needed it. */
  datatype World = World(
    processGroup: string, deployedVersion: string, artifactDigest: string, retiring: string,
    request: Option<Request>, active: Option<Active>, lastRollback: Option<Rollback>,
    lastSuccessful: Option<Entry>, history: seq<Entry>,
    store: map<string, string>,
    successBytes: string, requestBytes: string, mutations: nat, settlements: nat, missing: bool)

  /** The deployment's spec as one reconcile sees it, with the resolved source artifact. */
  datatype Spec = Spec(
    name: string, generation: int, version: string, digest: string, snapshot: string,
    historyLimit: int, rollbackEnabled: bool, maxRetries: int, readinessGate: bool, blueGreen: bool, stopAll: bool,
        cancel: bool)

  datatype Drift = CheckFailed | ReportOnly | ForceReplace | Matches(statusChanged: bool)

  datatype Gate = GateFailed | GateReady | GateWaiting | GateTimedOut

  datatype Preparation = Stopped | Waiting(written: bool)

  /** A candidate's id is checked to be non-empty when it is imported. */
  type GroupId = id: string | id != "" witness "g"

  /** What a BlueGreen step comes to as far as the deployment's status goes: still under way (the
      candidate possibly imported or started, possibly adopted without its new name), promoted,
      rolled back, or aborted before any traffic moved. */
  datatype BlueGreenOutcome =
    | Busy(starts: bool)
    | Adopted(candidate: GroupId)
    | Promoted(candidate: GroupId, blue: string)
    | SwitchedBack(reason: string)
    | Aborted

  /** The state NiFi reports for a replace request. */
  datatype Reply = Reply(id: string, complete: bool, failure: string)

  /** What the outside calls of one reconcile answer, in the order a reconcile may make them; the
      `again` fields are the answers to a failure handler nested in a failure handler. */
  datatype Answers = Answers(
    groupOk: bool, importOk: bool, importedGroup: string, drift: Drift, metadataOk: bool, finalizeOk: bool,
    preparation: Preparation, storeOk: bool, createOk: bool, pollOk: bool, reply: Reply, deleteOk: bool,
    cleanupOk: bool, undeleted: set<string>, rollbackGroupOk: bool, rollbackCreateOk: bool, rollbackReply: Reply,
    cleanupAgainOk: bool, undeletedAgain: set<string>,
    finishOk: bool, gate: Gate, blueGreen: BlueGreenOutcome)

  // --- history ---------------------------------------------------------------------------------

  predicate Repeats(last: Entry, entry: Entry) {
    last.version == entry.version && last.digest == entry.digest && last.verdict == entry.verdict
    && last.reason == entry.reason
  }

  function AppendEntry(history: seq<Entry>, entry: Entry): (r: seq<Entry>) {
    if history != [] && Repeats(history[|history| - 1], entry) then history else history + [entry]
  }

  function Limit(spec: Spec): (n: nat)
    ensures n > 0 && (spec.historyLimit > 0 ==> n == spec.historyLimit) && (spec.historyLimit <= 0 ==> n == 5)
  {
    if spec.historyLimit <= 0 then 5 else spec.historyLimit
  }

  function Names(history: seq<Entry>): (r: set<string>) {
    if history == [] then {}
    else
      var last := history[|history| - 1].configMap;
      Names(history[..|history| - 1]) + if last != "" then {last} else {}
  }

  function Protected(lastSuccessful: Option<Entry>): (r: set<string>) {
    if lastSuccessful.Some? && lastSuccessful.value.configMap != "" then {lastSuccessful.value.configMap} else {}
  }

  /** The ConfigMaps a trim deletes: named only by entries that fall off the front. */
  function Doomed(history: seq<Entry>, limit: nat, lastSuccessful: Option<Entry>): (r: set<string>) {
    if |history| <= limit then {}
    else Names(history[..|history| - limit]) - Names(history[|history| - limit..]) - Protected(lastSuccessful)
  }

  /** Trimming; `undeleted` are deletions the API refused, which are ignored. */
  function Trim(w: World, limit: nat, undeleted: set<string>): (r: World) {
    if |w.history| <= limit then w
    else w.(history := w.history[|w.history| - limit..],
        store := w.store - (Doomed(w.history, limit, w.lastSuccessful) - undeleted))
  }

  /** Persisting a snapshot never overwrites: a name that holds other bytes is refused. */
  function PersistSnapshot(store: map<string, string>, name: string, snapshot: string,
      storeOk: bool): (r: Option<map<string, string>>) {
    if name in store then (if store[name] == snapshot then Some(store) else None)
    else if storeOk then Some(store[name := snapshot]) else None
  }

  function RecordSuccess(w: World, spec: Spec, snapshot: string, version: string, digest: string, verdict: Verdict,
      storeOk: bool): (r: Option<World>) {
    var name := ConfigMapName(spec.name, digest);
    var store := PersistSnapshot(w.store, name, snapshot, storeOk);
    if store.None? then None
    else
      var entry := Entry(version, digest, name, verdict, "");
      Some(w.(store := store.value, history := AppendEntry(w.history, entry), lastSuccessful := Some(entry),
          successBytes := snapshot))
  }

  function RecordFailure(w: World, version: string, digest: string, configMap: string, reason: string): (r: World) {
    w.(history := AppendEntry(w.history, Entry(version, digest, configMap, Failed, reason)))
  }

  predicate NonBlank(s: string) {
    exists i :: 0 <= i < |s| && !IsSpace(s[i])
  }

  function ReadSnapshot(store: map<string, string>, name: string): (r: Option<string>) {
    if name in store && NonBlank(store[name]) then Some(store[name]) else None
  }

  function RollbackSnapshot(w: World): (r: Option<string>) {
    if w.lastSuccessful.None? || w.lastSuccessful.value.configMap == "" then None
    else ReadSnapshot(w.store, w.lastSuccessful.value.configMap)
  }

  // --- rollout records -------------------------------------------------------------------------

  function EnsureActive(w: World, spec: Spec, version: string, digest: string, operation: Operation): (r: World)
    ensures r.active.Some? && r.active.value.operation == operation && r.active.value.digest == digest
  {
    if w.active.Some? && w.active.value.digest == digest && w.active.value.operation == operation then w
    else w.(active :=
        Some(Active(Preparing, operation, version, digest, w.deployedVersion, w.artifactDigest, spec.stopAll, 0)))
  }

  /** The status of a deployment in sync; a rollback of an older generation is forgotten. */
  function Synced(t: World, spec: Spec, group: string, version: string, digest: string): (r: World) {
    t.(processGroup := group, deployedVersion := version, artifactDigest := digest, request := None, active := None,
       settlements := t.settlements + 1,
       lastRollback := if t.lastRollback.Some? && spec.generation > t.lastRollback.value.failedGeneration
                       then None else t.lastRollback)
  }

  /** markSnapshotDeploymentInSync; None when the snapshot could not be recorded. */
  function MarkInSync(w: World, spec: Spec, group: string, version: string, digest: string, snapshot: string,
      a: Answers): (r: Option<World>) {
    var recorded := if w.lastSuccessful.None? || w.lastSuccessful.value.digest != digest
                    then RecordSuccess(w, spec, snapshot, version, digest, Succeeded, a.storeOk) else Some(w);
    if recorded.None? then None
    else Some(Synced(Trim(recorded.value, Limit(spec), a.undeleted), spec, group, version, digest))
  }

  /** What a completed rollback says it rolled back. */
  function RollbackOf(w: World, spec: Spec): (r: Rollback) {
    if w.lastRollback.Some? then w.lastRollback.value.(completed := true)
    else if w.active.Some? then
      Rollback(spec.generation, w.active.value.previousVersion, w.active.value.previousDigest, true)
    else Rollback(spec.generation, "", "", true)
  }

  function Restored(t: World, rollback: Rollback, entry: Entry): (r: World) {
    t.(lastRollback := Some(rollback), deployedVersion := entry.version, artifactDigest := entry.digest,
       request := None, active := None, settlements := t.settlements + 1)
  }

  /** markSnapshotDeploymentRolledBack; None when the snapshot could not be recorded. */
  function MarkRolledBack(w: World, spec: Spec, entry: Entry, snapshot: string, a: Answers): (r: Option<World>) {
    var recorded := RecordSuccess(w, spec, snapshot, entry.version, entry.digest, RolledBack, a.storeOk);
    if recorded.None? then None
    else Some(Restored(Trim(recorded.value, Limit(spec), a.undeleted), RollbackOf(w, spec), entry))
  }

  predicate RetryAllowed(w: World, spec: Spec) {
    w.active.Some? && w.active.value.operation == InPlace && spec.maxRetries > 0
    && w.active.value.retries < spec.maxRetries
  }

  function Retry(w: World): (r: World)
    requires w.active.Some?
  {
    w.(active := Some(w.active.value.(retries := w.active.value.retries + 1, phase := Preparing)), request := None)
  }

  function Cleaned(request: Request, deleted: bool): (r: Request) {
    if deleted then request.(id := "") else request
  }

  /** The failure on record and the history trimmed. */
  function Booked(w: World, spec: Spec, f: Request, a: Answers): (r: World) {
    Trim(RecordFailure(w, f.version, f.digest, f.configMap, f.failure), Limit(spec), a.undeleted)
  }

  /** A rollback request to NiFi has been accepted. */
  function SendRollback(t: World, spec: Spec, f: Request, reply: Reply): (r: World)
    requires RollbackSnapshot(t).Some?
    ensures r.request.Some? && r.request.value.operation == Restore
  {
    var target := t.lastSuccessful.value;
    var started :=
        EnsureActive(t.(lastRollback := Some(Rollback(spec.generation, f.version, f.digest, false))), spec,
            target.version, target.digest, Restore);
    started.(active := Some(started.active.value.(phase := RollingBack, stopsAll := spec.stopAll)),
             request :=
                 Some(Request(reply.id, reply.complete, reply.failure, target.digest, target.version, Restore,
                     target.configMap)),
             requestBytes := RollbackSnapshot(t).value, mutations := t.mutations + 1)
  }

  /** handleFlowReplaceFailure: retry while the budget lasts, else roll back to LastSuccessful. */
  function HandleFailure(w: World, spec: Spec, failed: Request, a: Answers): (r: World)
    decreases if failed.operation == Restore then 0 else 1
  {
    var f := Cleaned(failed, a.cleanupOk);
    var t := Booked(w, spec, f, a);
    if f.operation == Restore then t.(request := Some(f), active := None)
    else if RetryAllowed(t, spec) then Retry(t)
    else if !spec.rollbackEnabled || RollbackSnapshot(t).None? then t.(request := Some(f), active := None)
    else if !a.rollbackGroupOk || !a.rollbackCreateOk || a.rollbackReply.id == "" then t.(request := Some(f))
    else
      var sent := SendRollback(t, spec, f, a.rollbackReply);
      if a.rollbackReply.failure == "" then sent
      else HandleFailure(sent, spec, sent.request.value,
          a.(cleanupOk := a.cleanupAgainOk, undeleted := a.undeletedAgain))
  }

  function Refreshed(request: Request, reply: Reply): (r: Request) {
    request.(id := if reply.id == "" then request.id else reply.id,
             complete := reply.complete, failure := reply.failure)
  }

  /** A request that NiFi has just answered for: a failure is cleaned up and handled. */
  function Judged(w: World, spec: Spec, a: Answers): (r: World)
    requires w.request.Some?
  {
    if w.request.value.failure == "" then w else HandleFailure(w, spec, Cleaned(w.request.value, a.deleteOk), a)
  }

  /** reconcilePendingFlowReplace. */
  function PollRequest(w: World, spec: Spec, a: Answers): (r: World)
    requires w.request.Some?
  {
    if !a.pollOk then w else Judged(w.(request := Some(Refreshed(w.request.value, a.reply))), spec, a)
  }

  /** finalizeSuccessfulRollout. A failed check is reported and so persists `w`; a snapshot that
      cannot be recorded returns an error without a status write and leaves `before`. */
  function FinishRollout(before: World, w: World, spec: Spec, version: string, digest: string, snapshot: string,
      a: Answers): (r: World) {
    if !a.finishOk then w
    else
      var done := MarkInSync(w, spec, w.processGroup, version, digest, snapshot, a);
      if done.Some? then done.value else before
  }

  /** completeFlowReplace. */
  function CompleteReplace(w: World, spec: Spec, a: Answers): (r: World)
    requires w.request.Some?
  {
    if !a.groupOk || !a.metadataOk || !a.deleteOk then w
    else
      var status := w.request.value.(complete := true, id := "");
      var w1 := w.(request := Some(status));
      var checkpoint := if status.configMap == "" then Some(spec.snapshot) else ReadSnapshot(w.store, status.configMap);
      if !a.finalizeOk then w1
      else if checkpoint.None? then w1.(missing := true)
      else if status.operation == Restore then
        if RollbackSnapshot(w1).None? then w1.(missing := true)
        else
          var done := MarkRolledBack(w1, spec, w1.lastSuccessful.value, RollbackSnapshot(w1).value, a);
          if done.Some? then done.value else w
      else if spec.readinessGate then
        var gated := EnsureActive(w1, spec, status.version, status.digest, InPlace);
        gated.(active := Some(gated.active.value.(phase := AwaitingReadiness)), request := None)
      else FinishRollout(w, w1, spec, status.version, status.digest, checkpoint.value, a)
  }

  /** reconcileRolloutReadiness. */
  function AwaitGate(w: World, spec: Spec, a: Answers): (r: World)
    requires w.active.Some?
  {
    match a.gate
    case GateReady => FinishRollout(w, w, spec, spec.version, spec.digest, spec.snapshot, a)
    case GateTimedOut => if RetryAllowed(w, spec) then Retry(w) else w.(active := None)
    case _ => w
  }

  /** rollbackBlocksTarget. */
  predicate Blocked(w: World, spec: Spec) {
    && w.lastRollback.Some? && w.lastRollback.value.completed
    && w.lastRollback.value.failedGeneration == spec.generation && w.lastRollback.value.failedDigest == spec.digest
  }

  /** The candidate runs and the old group is to be retired. */
  function Retiring(w: World, blue: string): (r: World) {
    w.(retiring := blue, mutations := w.mutations + 1)
  }

  /** A promotion that cannot record its success leaves no status behind. */
  function Promote(before: World, w: World, spec: Spec, candidate: GroupId, blue: string, a: Answers): (r: World) {
    var done := MarkInSync(Retiring(w, blue), spec, candidate, spec.version, spec.digest, spec.snapshot, a);
    if done.Some? then done.value else before.(mutations := w.mutations + 1)
  }

  /** The end of blueGreenRollbackTraffic. */
  function SwitchBack(w: World, spec: Spec, reason: string, a: Answers): (r: World)
    requires w.active.Some?
  {
    var target := w.active.value;
    Trim(RecordFailure(w.(active := None,
        lastRollback := Some(Rollback(spec.generation, target.version, target.digest, true))),
                       target.version, target.digest, "", reason), Limit(spec), a.undeleted)
  }

  function BlueGreenMove(before: World, w: World, spec: Spec, a: Answers): (r: World)
    requires w.active.Some?
  {
    match a.blueGreen
    case Busy(starts) => w.(mutations := w.mutations + if starts then 1 else 0)
    case Adopted(candidate) => w.(processGroup := candidate, mutations := w.mutations + 1)
    case Promoted(candidate, blue) => Promote(before, w, spec, candidate, blue, a)
    case SwitchedBack(reason) => SwitchBack(w, spec, reason, a)
    case Aborted => w.(active := None)
  }

  /** reconcileBlueGreenRollout, as far as the deployment's status goes. */
  function BlueGreenStep(w: World, spec: Spec, a: Answers): (r: World) {
    BlueGreenMove(w, EnsureActive(w, spec, spec.version, spec.digest, BlueGreen), spec, a)
  }

  /** NiFi accepted the replace request. */
  function Requested(w: World, spec: Spec, name: string, reply: Reply): (r: World)
    ensures r.request.Some?
  {
    w.(request := Some(Request(reply.id, reply.complete, reply.failure, spec.digest, spec.version, InPlace, name)),
       requestBytes := spec.snapshot, mutations := w.mutations + 1)
  }

  /** The replace request of a rollout whose checkpoint is stored. */
  function Dispatch(w: World, spec: Spec, name: string, a: Answers): (r: World) {
    if !a.createOk || a.reply.id == "" then w else Judged(Requested(w, spec, name, a.reply), spec, a)
  }

  /** The checkpoint and the replace request of a prepared rollout. */
  function SendReplace(w: World, spec: Spec, a: Answers): (r: World)
    requires w.active.Some?
  {
    var name := ConfigMapName(spec.name, spec.digest);
    var store := PersistSnapshot(w.store, name, spec.snapshot, a.storeOk);
    if store.None? then w
    else Dispatch(w.(store := store.value, active := Some(w.active.value.(phase := Replacing))), spec, name, a)
  }

  /** prepareFlowRollout, then the replace. */
  function StartReplace(w: World, spec: Spec, a: Answers): (r: World) {
    var w1 := EnsureActive(w, spec, spec.version, spec.digest, InPlace);
    if w1.active.value.phase != Preparing then SendReplace(w1, spec, a)
    else
      var prepared := w1.(active := Some(w1.active.value.(phase := Prepared)));
      if !w1.active.value.stopsAll then SendReplace(prepared, spec, a)
      else match a.preparation
           case Stopped => prepared
           case Waiting(written) => if written then w1 else w
  }

  function ImportFirst(w: World, spec: Spec, a: Answers): (r: World) {
    var w1 := EnsureActive(w, spec, spec.version, spec.digest, InPlace);
    if !a.importOk then w1
    else if a.importedGroup == "" then w1.(mutations := w1.mutations + 1)
    else w1.(processGroup := a.importedGroup, deployedVersion := spec.version, artifactDigest := spec.digest,
        request := None, mutations := w1.mutations + 1)
  }

  /** The target is deployed and the live flow matches it. */
  function Steady(w: World, spec: Spec, statusChanged: bool, a: Answers): (r: World) {
    var needsCompletion := w.lastSuccessful.None? || w.lastSuccessful.value.digest != spec.digest || w.active.Some?;
    if !a.metadataOk || (needsCompletion && !a.finalizeOk) then w
    else if needsCompletion || statusChanged then
      var done := MarkInSync(w, spec, w.processGroup, spec.version, spec.digest, spec.snapshot, a);
      if done.Some? then done.value else w
    else w
  }

  predicate Outstanding(w: World) {
    w.request.Some? && w.request.value.id != ""
  }

  predicate AwaitsReadiness(w: World) {
    w.active.Some? && w.active.value.operation == InPlace && w.active.value.phase == AwaitingReadiness
  }

  /** A replace request is in flight. */
  function Resume(w: World, spec: Spec, a: Answers): (r: World)
    requires Outstanding(w)
  {
    if w.request.value.failure != "" then HandleFailure(w, spec, w.request.value, a)
    else if w.request.value.complete then CompleteReplace(w, spec, a)
    else PollRequest(w, spec, a)
  }

  /** Nothing is in flight: compare the deployed flow with its target. */
  function Compare(w: World, spec: Spec, a: Answers): (r: World) {
    if w.processGroup == "" then ImportFirst(w, spec, a)
    else if !a.groupOk || Blocked(w, spec) then w
    else if w.artifactDigest == spec.digest && w.deployedVersion == spec.version && a.drift != ForceReplace then
      match a.drift
      case Matches(statusChanged) => Steady(w, spec, statusChanged, a)
      case _ => w
    else if spec.blueGreen then BlueGreenStep(w, spec, a)
    else StartReplace(w, spec, a)
  }

  /** reconcileSnapshotFlowDeployment. */
  function Reconcile(w: World, spec: Spec, a: Answers): (r: World) {
    if w.retiring != "" then w.(retiring := "")
    else if spec.cancel && w.active.Some? then
      if w.active.value.operation == BlueGreen then w else w.(request := None, active := None)
    else if AwaitsReadiness(w) then AwaitGate(w, spec, a)
    else if Outstanding(w) then Resume(w, spec, a)
    else Compare(w, spec, a)
  }
}
