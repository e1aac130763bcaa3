/** The two models of a BlueGreen rollout put together: the step protocol on the canvas and the
    deployment's status, in which a BlueGreen step appears only by its outcome. Where the status goes
    on with the rollout the two agree; where it does not, the rollout is abandoned half way. */
module Composition {
  import opened Text
  import B = BlueGreen
  import L = BlueGreenLaws
  import R = Rollout
  import Q = RolloutRuns

  predicate InBlueGreen(r: R.World) {
    r.active.Some? && r.active.value.operation == R.BlueGreen
  }

  /** The deployment's status and the rollout's own state tell the same story. */
  predicate Coupled(r: R.World, b: B.World) {
    r.processGroup == b.processGroup && r.retiring == b.retiring && (InBlueGreen(r) <==> b.active.Some?)
  }

  // --- the outcome of a step -----------------------------------------------------------------------

  /** What one protocol step comes to for the deployment's status. */
  function OutcomeOf(b: B.World, b': B.World, reason: string): (o: R.BlueGreenOutcome)
    requires b.active.Some? && b'.processGroup != ""
  {
    if b'.active.Some? then
      if b'.processGroup != b.processGroup then R.Adopted(b'.processGroup)
         else R.Busy(b'.active.value.candidate != b.active.value.candidate)
    else if b'.promoted then R.Promoted(b'.processGroup, b.active.value.blue)
    else if b'.rolledBack then R.SwitchedBack(reason)
    else R.Aborted
  }

  /** What the phases of a rollout under way may do to the groups: only a promotion retires, names the
      candidate, or ends in `promoted`. */
  ghost predicate Accounted(b: B.World, b': B.World)
    requires b.active.Some?
  {
    && (b'.active.Some? ==> b'.retiring == "")
    && (b'.active.None? && b'.promoted ==> b'.retiring == b.active.value.blue)
    && (b'.active.None? && !b'.promoted ==> b'.retiring == "" && b'.processGroup == b.processGroup)
  }

  lemma SwitchAccounted(b: B.World, setup: B.Setup, a: B.Answers)
    requires b.active.Some? && b.retiring == "" && !b.promoted
    requires a.listing.Some? ==> B.IsListing(a.listing.value, b.canvas.links)
    ensures Accounted(b, B.SwitchTraffic(b, setup, a))
  {
    var b', ro := B.SwitchTraffic(b, setup, a), b.active.value;
    var i := B.FirstWith(ro.records, false);
    if !ro.inventoried {
      assert b' == B.TakeInventory(b, setup, a);
    } else if ro.records != [] && a.portsOk && i < |ro.records| && B.GreenPort(ro.records[i], setup) != "" {
      assert b' == B.Attempt(b, setup, a, i);
    } else {
      assert b'.retiring == b.retiring && b'.processGroup == b.processGroup && b'.promoted == b.promoted;
    }
  }

  lemma StepAccounted(b: B.World, setup: B.Setup, a: B.Answers)
    requires b.active.Some? && b.retiring == "" && !b.promoted
    requires a.listing.Some? ==> B.IsListing(a.listing.value, b.canvas.links)
    ensures Accounted(b, B.Reconcile(b, setup, false, a))
  {
    var b' := B.Reconcile(b, setup, false, a);
    match b.active.value.phase
    case DeployingCandidate => assert b' == B.DeployCandidate(b, a);
    case AwaitingReadiness => assert b' == B.AwaitReadiness(b, a);
    case SwitchingTraffic => assert b' == B.SwitchTraffic(b, setup, a); SwitchAccounted(b, setup, a);
    case Promoting => assert b' == B.Promote(b, a);
    case RollingBackTraffic => assert b' == B.RollbackTraffic(b, a);
  }

  lemma MoveCoupled(r: R.World, b: B.World, b': B.World, spec: R.Spec, a: R.Answers, reason: string)
    requires Coupled(r, b) && b.active.Some? && r.active.Some? && r.retiring == "" && b'.processGroup != ""
             && Accounted(b, b')
    requires a.blueGreen == OutcomeOf(b, b', reason)
    requires a.blueGreen.Promoted? ==> RecordsPromotion(r, spec, a)
    ensures Coupled(R.BlueGreenMove(r, r, spec, a), b')
  {
    var r' := R.BlueGreenMove(r, r, spec, a);
    match a.blueGreen
    case Promoted(candidate, blue) =>
      assert r' == R.Promote(r, r, spec, candidate, blue, a);
      PromotedStatus(r, spec, candidate, blue, a);
    case SwitchedBack(reason) =>
      assert r' == R.SwitchBack(r, spec, reason, a);
      SwitchedBackStatus(r, spec, reason, a);
    case _ =>
  }

  /** The promotion's snapshot can be recorded. */
  predicate RecordsPromotion(r: R.World, spec: R.Spec, a: R.Answers)
    requires a.blueGreen.Promoted?
  {
    R.MarkInSync(R.Retiring(r, a.blueGreen.blue), spec, a.blueGreen.candidate, spec.version, spec.digest,
        spec.snapshot, a).Some?
  }

  lemma PromotedStatus(r: R.World, spec: R.Spec, candidate: R.GroupId, blue: string, a: R.Answers)
    requires R.MarkInSync(R.Retiring(r, blue), spec, candidate, spec.version, spec.digest, spec.snapshot, a).Some?
    ensures var r' := R.Promote(r, r, spec, candidate, blue, a);
            r'.processGroup == candidate && r'.retiring == blue && r'.active.None?
  {
  }

  lemma SwitchedBackStatus(r: R.World, spec: R.Spec, reason: string, a: R.Answers)
    requires r.active.Some?
    ensures var r' := R.SwitchBack(r, spec, reason, a);
            && r'.processGroup == r.processGroup && r'.retiring == r.retiring && r'.active.None?
            && r'.mutations == r.mutations
  {
  }

  // --- when the status goes on with the rollout ------------------------------------------------------

  /** The reconcile reaches the rollout of this record: it retires, cancels, or takes a step. */
  predicate Proceeds(r: R.World, spec: R.Spec, a: R.Answers)
    requires InBlueGreen(r)
  {
    || r.retiring != "" || spec.cancel
    || (a.groupOk && !R.Blocked(r, spec) && !Deployed(r, spec, a) && spec.blueGreen
    && spec.digest == r.active.value.digest)
  }

  /** The target counts as deployed and is not to be replaced because of drift. */
  predicate Deployed(r: R.World, spec: R.Spec, a: R.Answers) {
    r.artifactDigest == spec.digest && r.deployedVersion == spec.version && a.drift != R.ForceReplace
  }

  /** The reconcile leaves the rollout behind: the target counts as deployed again and is marked in
      sync, the strategy is no longer BlueGreen, or the source has another digest. */
  predicate Abandons(r: R.World, spec: R.Spec, a: R.Answers)
    requires InBlueGreen(r)
  {
    && r.retiring == "" && !spec.cancel && a.groupOk && !R.Blocked(r, spec)
    && if Deployed(r, spec, a) then
         && a.drift.Matches? && a.metadataOk && a.finalizeOk
         && R.MarkInSync(r, spec, r.processGroup, spec.version, spec.digest, spec.snapshot, a).Some?
       else if spec.blueGreen then spec.digest != r.active.value.digest
       else !(spec.stopAll && a.preparation == R.Waiting(false))
  }

  /** The record is a new one, for another digest. */
  predicate Restarted(r: R.World, r': R.World)
    requires InBlueGreen(r)
  {
    InBlueGreen(r') ==> r'.active.value.digest != r.active.value.digest
  }

  lemma BookedKeepsActive(w: R.World, spec: R.Spec, f: R.Request, a: R.Answers)
    ensures R.Booked(w, spec, f, a).active == w.active
  {
  }

  lemma {:induction false} FailureLeavesBlueGreen(w: R.World, spec: R.Spec, failed: R.Request, a: R.Answers)
    requires !InBlueGreen(w)
    ensures !InBlueGreen(R.HandleFailure(w, spec, failed, a))
    decreases if failed.operation == R.Restore then 0 else 1
  {
    var f := R.Cleaned(failed, a.cleanupOk);
    var t, r := R.Booked(w, spec, f, a), R.HandleFailure(w, spec, failed, a);
    BookedKeepsActive(w, spec, f, a);
    if f.operation == R.Restore {
      assert r == t.(request := Some(f), active := None);
    } else if R.RetryAllowed(t, spec) {
      assert r == R.Retry(t);
    } else if !spec.rollbackEnabled || R.RollbackSnapshot(t).None? {
      assert r == t.(request := Some(f), active := None);
    } else if !a.rollbackGroupOk || !a.rollbackCreateOk || a.rollbackReply.id == "" {
      assert r == t.(request := Some(f));
    } else {
      var sent := R.SendRollback(t, spec, f, a.rollbackReply);
      var again := a.(cleanupOk := a.cleanupAgainOk, undeleted := a.undeletedAgain);
      FailureLeavesBlueGreen(sent, spec, sent.request.value, again);
      assert r == if a.rollbackReply.failure == "" then sent
             else R.HandleFailure(sent, spec, sent.request.value, again);
    }
  }

  lemma SendLeavesBlueGreen(w: R.World, spec: R.Spec, a: R.Answers)
    requires w.active.Some? && !InBlueGreen(w)
    ensures !InBlueGreen(R.SendReplace(w, spec, a))
  {
    var name := R.ConfigMapName(spec.name, spec.digest);
    var store := R.PersistSnapshot(w.store, name, spec.snapshot, a.storeOk);
    if store.Some? {
      var w1 := w.(store := store.value, active := Some(w.active.value.(phase := R.Replacing)));
      var w2 := R.Requested(w1, spec, name, a.reply);
      FailureLeavesBlueGreen(w2, spec, R.Cleaned(w2.request.value, a.deleteOk), a);
      assert R.SendReplace(w, spec, a) == R.Dispatch(w1, spec, name, a);
    }
  }

  lemma StartLeavesBlueGreen(r: R.World, spec: R.Spec, a: R.Answers)
    requires InBlueGreen(r)
    ensures var r' := R.StartReplace(r, spec, a);
            if spec.stopAll && a.preparation == R.Waiting(false) then r' == r else !InBlueGreen(r')
  {
    var w1 := R.EnsureActive(r, spec, spec.version, spec.digest, R.InPlace);
    var prepared := w1.(active := Some(w1.active.value.(phase := R.Prepared)));
    SendLeavesBlueGreen(prepared, spec, a);
  }

  lemma SteadyOnRollout(r: R.World, spec: R.Spec, changed: bool, a: R.Answers)
    requires InBlueGreen(r)
    ensures var r', done := R.Steady(r, spec, changed, a),
                            R.MarkInSync(r, spec, r.processGroup, spec.version, spec.digest, spec.snapshot, a);
            if a.metadataOk && a.finalizeOk && done.Some? then r' == done.value && r'.active.None? else r' == r
  {
  }

  lemma MoveRestarts(r: R.World, spec: R.Spec, a: R.Answers)
    requires InBlueGreen(r) && spec.digest != r.active.value.digest
    requires a.blueGreen == R.Busy(false)
    ensures Restarted(r, R.BlueGreenStep(r, spec, a))
  {
  }

  /** What becomes of a BlueGreen rollout in one reconcile of its deployment: it goes on exactly if it
      proceeds, it is left behind exactly if it is abandoned, and otherwise nothing changes. A
      restarted rollout only starts, so its first step is `Busy(false)`. */
  lemma RolloutFate(r: R.World, spec: R.Spec, a: R.Answers)
    requires InBlueGreen(r) && !R.Outstanding(r) && r.processGroup != ""
    requires spec.digest != r.active.value.digest ==> a.blueGreen == R.Busy(false)
    ensures !(Proceeds(r, spec, a) && Abandons(r, spec, a))
    ensures var r' := R.Reconcile(r, spec, a);
            && (Abandons(r, spec, a) ==> Restarted(r, r'))
            && (!Abandons(r, spec, a) && !Proceeds(r, spec, a) ==> r' == r)
            && (Proceeds(r, spec, a) && r.retiring == "" && !spec.cancel ==> r' == R.BlueGreenMove(r, r, spec, a))
            && (Proceeds(r, spec, a) && r.retiring == "" && spec.cancel ==> r' == r)
            && (r.retiring != "" ==> r' == r.(retiring := ""))
  {
    var r' := R.Reconcile(r, spec, a);
    assert !R.AwaitsReadiness(r);
    if r.retiring == "" && !spec.cancel {
      assert r' == R.Compare(r, spec, a);
      if a.groupOk && !R.Blocked(r, spec) {
        if Deployed(r, spec, a) {
          if a.drift.Matches? {
            assert r' == R.Steady(r, spec, a.drift.statusChanged, a);
            SteadyOnRollout(r, spec, a.drift.statusChanged, a);
          }
        } else if spec.blueGreen {
          assert r' == R.BlueGreenStep(r, spec, a);
          if spec.digest != r.active.value.digest { MoveRestarts(r, spec, a); }
        } else {
          assert r' == R.StartReplace(r, spec, a);
          StartLeavesBlueGreen(r, spec, a);
        }
      }
    }
  }

  /** While the rollout proceeds, one reconcile of the deployment and one step of the protocol keep the
      two states coupled: the status model refines the protocol. */
  lemma ReconcileRefines(r: R.World, b: B.World, spec: R.Spec, setup: B.Setup, ra: R.Answers, ba: B.Answers,
      reason: string)
    requires Coupled(r, b) && b.active.Some? && !b.promoted && !b.rolledBack && !R.Outstanding(r)
             && r.processGroup != ""
    requires ba.listing.Some? ==> B.IsListing(ba.listing.value, b.canvas.links)
    requires Proceeds(r, spec, ra)
    requires var b' := B.Reconcile(b, setup, spec.cancel, ba);
             b'.processGroup != "" && ra.blueGreen == if r.retiring == ""
             && !spec.cancel then OutcomeOf(b, b', reason) else R.Busy(false)
    requires ra.blueGreen.Promoted? ==> RecordsPromotion(r, spec, ra)
    ensures Coupled(R.Reconcile(r, spec, ra), B.Reconcile(b, setup, spec.cancel, ba))
  {
    var b' := B.Reconcile(b, setup, spec.cancel, ba);
    if r.retiring == "" && !spec.cancel {
      RolloutFate(r, spec, ra);
      StepAccounted(b, setup, ba);
      MoveCoupled(r, b, b', spec, ra, reason);
    }
  }

  /** From a failing candidate to rest: when the protocol's last rollback step ends a rollout that
      proceeds, the deployment is at rest for the very generation and digest that failed, and no later
      reconcile for that target changes anything, whatever the outside calls answer. */
  lemma FailedCandidateComesToRest(r: R.World, b: B.World, spec: R.Spec, setup: B.Setup, ra: R.Answers,
      ba: B.Answers, reason: string, later: R.Answers)
    requires Coupled(r, b) && b.active.Some? && !b.rolledBack && !R.Outstanding(r) && r.processGroup != ""
    requires ba.listing.Some? ==> B.IsListing(ba.listing.value, b.canvas.links)
    requires Proceeds(r, spec, ra) && r.retiring == "" && !spec.cancel
    requires var b' := B.Reconcile(b, setup, spec.cancel, ba);
             && b'.processGroup != "" && b'.active.None? && b'.rolledBack && !b'.promoted
             && ra.blueGreen == OutcomeOf(b, b', reason)
    ensures var r' := R.Reconcile(r, spec, ra);
            && Q.Quiet(r', spec.generation, spec.digest)
            && r'.lastRollback.value.failedVersion == r.active.value.version
            && r'.mutations == r.mutations && R.Reconcile(r', spec, later) == r'
  {
    RolloutFate(r, spec, ra);
    var r' := R.Reconcile(r, spec, ra);
    assert r' == R.SwitchBack(r, spec, reason, ra);
    Q.SwitchBackClears(r, spec, reason, ra);
    SwitchedBackStatus(r, spec, reason, ra);
    Q.QuietStays(r', spec, later);
  }

  // --- the boundary of an abandoned rollout ------------------------------------------------------------

  /** An abandoned rollout leaves the canvas as it is: its boundary is back at blue exactly if no record
      was switched and none was lost. */
  lemma AbandonedBoundary(b: B.World, setup: B.Setup, j: nat, k: nat, gap: bool, hole: bool)
    requires b.active.Some? && L.Shape(b.canvas, b.active.value, setup, j, k, gap, hole)
    ensures (forall i :: 0 <= i < |b.active.value.records| ==> L.AtBlue(b.canvas, b.active.value.records[i]))
            <==> j == k && !hole
  {
    L.ShapeSwitches(b.canvas, b.active.value, setup, j, k, gap, hole);
    var rs := b.active.value.records;
    if j < k { assert rs[j].switched; }
    if hole { assert L.Lost(b.canvas, rs[k]); }
  }

  /** One such end: drift started the rollout, one connection is switched, then the live flow matches
      again and the deployment is marked in sync with its boundary at the candidate. */
  lemma AbandonedExample() returns (r: R.World, b: B.World, spec: R.Spec, a: R.Answers, setup: B.Setup)
    ensures Coupled(r, b) && InBlueGreen(r) && !R.Outstanding(r) && r.processGroup != "" && Abandons(r, spec, a)
    ensures b.active.Some? && L.Whole(b.canvas, b.active.value, setup)
    ensures R.Reconcile(r, spec, a).active.None? && R.Reconcile(r, spec, a).processGroup == "blue"
    ensures exists i :: 0 <= i < |b.active.value.records| && !L.AtBlue(b.canvas, b.active.value.records[i])
  {
    var component := B.Component(B.Connectable("p", B.Processor, "root"), B.Connectable("i", B.InputPort, "blue"), "");
    var record := B.Record(B.Inbound, "in", "c", component, true, "g", None);
    setup := B.Setup(map["i" := "in"], map[], map["in" := "j"], map[], 120, false);
    var green := B.Link(B.GreenComponent(record, "green", setup), 0);
    var canvas := B.Canvas(map["g" := green], {"c", "g"}, {}, 0, {"c", "g"});
    var ro := B.Rollout(B.SwitchingTraffic, "green", "blue", true, [record]);
    b := B.World(canvas, Some(ro), "blue", "", false, false, {}, 0);
    var active := R.Active(R.Preparing, R.BlueGreen, "1", "x", "1", "x", false, 0);
    var entry := R.Entry("1", "x", "m", R.Succeeded, "");
    r := R.World("blue", "1", "x", "", None, Some(active), None, Some(entry), [entry], map[], "", "", 0, 0, false);
    spec := R.Spec("n", 1, "1", "x", "s", 5, true, 0, false, true, false, false);
    var reply := R.Reply("", false, "");
    a := R.Answers(true, true, "", R.Matches(false), true, true, R.Stopped, true, true, true, reply, true, true, {},
                   true, true, reply, true, {}, true, R.GateReady, R.Busy(false));
    assert "g"[0] != "c"[0];
    assert L.LiveId(ro.records[0]) == "g" && "g" in L.LiveIds(ro.records);
    assert L.AtGreen(canvas, record, "green", setup) && !L.AtBlue(canvas, ro.records[0]);
    assert R.Trim(r, R.Limit(spec), {}) == r;
    RolloutFate(r, spec, a);
    SteadyOnRollout(r, spec, false, a);
    assert R.Reconcile(r, spec, a) == R.Steady(r, spec, false, a);
  }
}
