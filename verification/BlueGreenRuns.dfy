/** Theorems over whole BlueGreen runs, and the exact conditions under which the code's promises
    hold. */
module BlueGreenRuns {
  import opened Text
  import opened BlueGreen
  import opened BlueGreenLaws

  /** Between reconciles queues fill and drain, components start and stop, and other connections
      come and go; nobody else touches the recorded connections or reuses an id. */
  ghost predicate EnvStep(w: World, w': World) {
    && w'.(canvas := w.canvas, now := w.now) == w && w'.now >= w.now
    && w'.canvas.discarded == w.canvas.discarded && w'.canvas.tracked == w.canvas.tracked
    && w'.canvas.links.Keys <= w'.canvas.used
    && Keeps(w.canvas, w'.canvas, w.canvas.used - (if w.active.Some? then LiveIds(w.active.value.records) else {}))
  }

  datatype Event = Env | Reconciled(cancel: bool, answers: Answers)

  ghost predicate Next(w: World, e: Event, w': World, setup: Setup) {
    match e
    case Env => EnvStep(w, w')
    case Reconciled(cancel, a) => Faithful(w, a) && w' == Reconcile(w, setup, cancel, a)
  }

  ghost predicate Starts(w: World) {
    && w.active == Some(Rollout(DeployingCandidate, "", w.processGroup, false, []))
    && w.retiring == "" && !w.promoted && !w.rolledBack && w.canvas.links.Keys <= w.canvas.used
    && w.canvas.tracked == {}
  }

  ghost predicate IsRun(run: seq<World>, events: seq<Event>, setup: Setup) {
    && |run| == |events| + 1 && Starts(run[0])
    && forall i :: 0 <= i < |events| ==> Next(run[i], events[i], run[i + 1], setup)
  }

  ghost predicate CreatesSucceed(events: seq<Event>, n: nat)
    requires n <= |events|
  {
    forall i :: 0 <= i < n && events[i].Reconciled? ==> events[i].answers.createOk
  }

  /** Event `m` is a forward switch whose create fails after its delete. */
  ghost predicate LosesAt(run: seq<World>, events: seq<Event>, setup: Setup, m: nat)
    requires m < |events| < |run|
  {
    events[m].Reconciled? && CreateFails(run[m], setup, events[m].cancel, events[m].answers)
  }

  ghost predicate LostBefore(run: seq<World>, events: seq<Event>, setup: Setup, n: nat)
    requires n <= |events| < |run|
  {
    exists m: nat :: m < n && LosesAt(run, events, setup, m)
  }

  /** The lost record is the first unswitched one of the reconcile that lost it. */
  ghost predicate LostThere(run: seq<World>, events: seq<Event>, setup: Setup, n: nat, k: nat)
    requires n <= |events| < |run|
  {
    exists m: nat :: m < n && LosesAt(run, events, setup, m) && k == FirstWith(run[m].active.value.records, false)
  }

  lemma EnvKeeps(w: World, w': World, setup: Setup, k: nat, gap: bool, hole: bool)
    requires EnvStep(w, w') && Inv(w, setup, k, gap, hole)
    ensures Inv(w', setup, k, gap, hole)
  {
    if w.active.Some? {
      var j: nat :| Fits(w.canvas, w.active.value, setup, j, k, gap, hole);
      KeptShape(w.canvas, w'.canvas, w.active.value, setup, j, k, gap, hole);
      SoleKept(w.canvas, w'.canvas, w.active.value.records);
      assert Fits(w'.canvas, w'.active.value, setup, j, k, gap, hole);
    }
  }

  /** Every reachable state has the interval shape without second copies; a record is lost exactly
      if a forward create failed before, and it is the record that create was for. */
  lemma {:induction false} RunKeepsShape(run: seq<World>, events: seq<Event>, setup: Setup, n: nat)
    returns (k: nat, gap: bool, hole: bool)
    requires IsRun(run, events, setup) && n <= |events|
    ensures Inv(run[n], setup, k, gap, hole)
    ensures hole <==> LostBefore(run, events, setup, n)
    ensures hole ==> LostThere(run, events, setup, n, k)
    ensures CreatesSucceed(events, n) ==> !gap && !hole
  {
    if n == 0 {
      k, gap, hole := 0, false, false;
      assert Fits(run[0].canvas, run[0].active.value, setup, 0, 0, false, false);
    } else {
      var m, e := n - 1, events[n - 1];
      k, gap, hole := RunKeepsShape(run, events, setup, m);
      assert Next(run[m], e, run[m + 1], setup);
      assert CreatesSucceed(events, n) ==> CreatesSucceed(events, m);
      LostBeforeStep(run, events, setup, m, k);
      if e.Env? {
        EnvKeeps(run[m], run[n], setup, k, gap, hole);
      } else {
        k, gap, hole := ReconcileKeeps(run[m], setup, e.cancel, e.answers, k, gap, hole);
      }
    }
  }

  lemma LostBeforeStep(run: seq<World>, events: seq<Event>, setup: Setup, m: nat, k: nat)
    requires m < |events| < |run|
    ensures LostBefore(run, events, setup, m + 1)
            <==> LostBefore(run, events, setup, m) || LosesAt(run, events, setup, m)
    ensures LostThere(run, events, setup, m, k) ==> LostThere(run, events, setup, m + 1, k)
    ensures LosesAt(run, events, setup, m) ==>
              LostThere(run, events, setup, m + 1, FirstWith(run[m].active.value.records, false))
  {
    if LostBefore(run, events, setup, m) {
      var i: nat :| i < m && LosesAt(run, events, setup, i);
      assert i < m + 1;
    }
    if LostThere(run, events, setup, m, k) {
      var i: nat :| i < m && LosesAt(run, events, setup, i) && k == FirstWith(run[i].active.value.records, false);
      assert i < m + 1;
    }
  }

  /** Boundary conservation: while no create fails, in every reachable state every recorded
      connection is live exactly once, at its recorded endpoints or at the candidate's port. */
  lemma BoundaryConserved(run: seq<World>, events: seq<Event>, setup: Setup, n: nat)
    requires IsRun(run, events, setup) && n <= |events| && CreatesSucceed(events, n)
    ensures Conserved(run[n], setup)
  {
    var k, gap, hole := RunKeepsShape(run, events, setup, n);
  }

  ghost predicate RollbackCompletes(w: World, w': World) {
    w.active.Some? && w.active.value.phase == RollingBackTraffic && w'.active.None?
  }

  /** Fault containment: when a rollback completes, every record is live at its recorded endpoints,
      exactly once, except at most one. That one exists if and only if a forward create failed
      after its delete, and it is the first unswitched record of that reconcile. Create failures
      of the rollback itself cost nothing. */
  lemma CompletedRollbackRestores(run: seq<World>, events: seq<Event>, setup: Setup, n: nat) returns (lost: Option<nat>)
    requires IsRun(run, events, setup) && n < |events|
    requires RollbackCompletes(run[n], run[n + 1])
    ensures var rs, c := run[n].active.value.records, run[n + 1].canvas;
            && (forall i :: 0 <= i < |rs| && lost != Some(i) ==> AtBlue(c, rs[i]))
            && (lost.Some? ==> lost.value < |rs| && Lost(c, rs[lost.value]))
            && IdsApart(c, rs) && Sole(c, rs)
    ensures lost.Some? <==> LostBefore(run, events, setup, n)
    ensures lost.Some? ==> LostThere(run, events, setup, n, lost.value)
    ensures run[n + 1].rolledBack && run[n + 1].processGroup == run[n].processGroup
    ensures run[n].active.value.candidate in run[n + 1].deleted
  {
    var k, gap, hole := RunKeepsShape(run, events, setup, n);
    assert Next(run[n], events[n], run[n + 1], setup);
    RollbackEnds(run[n], setup, events[n].cancel, events[n].answers, k, gap, hole);
    lost := if hole then Some(k) else None;
  }

  lemma RollbackEnds(w: World, setup: Setup, cancel: bool, a: Answers, k: nat, gap: bool, hole: bool)
    requires Faithful(w, a) && Inv(w, setup, k, gap, hole) && w.retiring == ""
    requires RollbackCompletes(w, Reconcile(w, setup, cancel, a))
    ensures var w', rs := Reconcile(w, setup, cancel, a), w.active.value.records;
            && (forall i :: 0 <= i < |rs| && !(hole && i == k) ==> AtBlue(w'.canvas, rs[i]))
            && (hole ==> k < |rs| && Lost(w'.canvas, rs[k]))
            && IdsApart(w'.canvas, rs) && Sole(w'.canvas, rs)
            && w'.rolledBack && w'.processGroup == w.processGroup && w.active.value.candidate in w'.deleted
  {
    var ro, w' := w.active.value, Reconcile(w, setup, cancel, a);
    assert w' == RollbackTraffic(w, a);
    var j: nat :| Fits(w.canvas, ro, setup, j, k, gap, hole);
    ShapeSwitches(w.canvas, ro, setup, j, k, gap, hole);
    assert FirstWith(ro.records, true) == |ro.records|;
    assert j >= |ro.records| || !ro.records[j].switched;
    assert w'.canvas == w.canvas.(running := w'.canvas.running);
    SoleKept(w.canvas, w'.canvas, ro.records);
  }

  // --- promotion -------------------------------------------------------------------------------

  ghost predicate AllAtGreen(c: Canvas, ro: Rollout, setup: Setup) {
    forall i :: 0 <= i < |ro.records| ==> AtGreen(c, ro.records[i], ro.candidate, setup)
  }

  /** The promotion gate: the Promoting phase is reached only with every record switched and live
      at the candidate, and only promotion marks blue for retirement. */
  lemma PromotionGate(run: seq<World>, events: seq<Event>, setup: Setup, n: nat)
    requires IsRun(run, events, setup) && n <= |events|
    ensures run[n].active.Some? && run[n].active.value.phase == Promoting ==>
              AllAtGreen(run[n].canvas, run[n].active.value, setup)
    ensures n < |events| && run[n].retiring == "" && run[n + 1].retiring != "" ==>
              && run[n].active.Some? && run[n].active.value.phase == Promoting
              && run[n + 1].retiring == run[n].active.value.blue
              && AllAtGreen(run[n + 1].canvas, run[n].active.value, setup)
  {
    var k, gap, hole := RunKeepsShape(run, events, setup, n);
    if n < |events| {
      assert Next(run[n], events[n], run[n + 1], setup);
      if events[n].Reconciled? && run[n].retiring == "" {
        OnlyPromotionRetires(run[n], setup, events[n].cancel, events[n].answers);
      }
    }
  }

  lemma OnlyPromotionRetires(w: World, setup: Setup, cancel: bool, a: Answers)
    requires Faithful(w, a) && w.retiring == ""
    ensures var w' := Reconcile(w, setup, cancel, a);
            w'.retiring != "" ==>
              && w.active.Some? && w.active.value.phase == Promoting && w'.retiring == w.active.value.blue
                                  && w'.canvas == w.canvas.(running := w'.canvas.running)
  {
    var w' := Reconcile(w, setup, cancel, a);
    if w.active.Some? && !cancel {
      match w.active.value.phase
      case DeployingCandidate => assert w' == DeployCandidate(w, a);
      case AwaitingReadiness => assert w' == AwaitReadiness(w, a);
      case SwitchingTraffic => assert w' == SwitchTraffic(w, setup, a); SwitchKeepsRetiring(w, setup, a);
      case Promoting => assert w' == Promote(w, a);
      case RollingBackTraffic => assert w' == RollbackTraffic(w, a);
    }
  }

  lemma SwitchKeepsRetiring(w: World, setup: Setup, a: Answers)
    requires w.active.Some? && (a.listing.Some? ==> IsListing(a.listing.value, w.canvas.links))
    ensures SwitchTraffic(w, setup, a).retiring == w.retiring
  {
  }

  ghost predicate References(c: Component, group: string) {
    c.source.group == group || c.destination.group == group
  }

  function ExternalEnd(r: Record): (e: Connectable) {
    if r.direction == Inbound then r.definition.source else r.definition.destination
  }

  /** A switched connection still references blue exactly when its external end is in blue. */
  lemma StillReferencesBlue(c: Canvas, r: Record, candidate: string, blue: string, setup: Setup)
    requires AtGreen(c, r, candidate, setup) && candidate != blue
    ensures References(c.links[r.greenId].component, blue) <==> ExternalEnd(r).group == blue
  {
  }

  /** A blue-to-blue loop is such a case: it is recorded as inbound only. */
  lemma LoopIsRecordedInbound(setup: Setup, blue: string, o: string, i: string, settings: string)
    requires i in setup.blueInputs && setup.blueInputs[i] != "" && o in setup.blueOutputs && setup.blueOutputs[o] != ""
    ensures var loop := Component(Connectable(o, OutputPort, blue), Connectable(i, InputPort, blue), settings);
            && Classify(loop, blue, setup) == Crossing(Inbound, setup.blueInputs[i])
            && ExternalEnd(Recorded("c", loop, Classify(loop, blue, setup))).group == blue
  {
  }

  // --- pace ------------------------------------------------------------------------------------

  ghost predicate Flipped(w: World, w': World, i: nat) {
    && w.active.Some? && w'.active.Some? && i < |w.active.value.records| && i < |w'.active.value.records|
    && w.active.value.records[i].switched != w'.active.value.records[i].switched
  }

  ghost predicate OnlyFlips(w: World, w': World, at: nat) {
    forall i: nat :: Flipped(w, w', i) ==> i == at
  }

  /** Each reconcile flips at most one record, and a rollback never turns forward again. */
  lemma OneFlipPerReconcile(w: World, setup: Setup, cancel: bool, a: Answers) returns (at: nat)
    requires a.listing.Some? ==> IsListing(a.listing.value, w.canvas.links)
    requires w.active.Some? && !w.active.value.inventoried ==> w.active.value.records == []
    ensures OnlyFlips(w, Reconcile(w, setup, cancel, a), at)
    ensures var w' := Reconcile(w, setup, cancel, a);
            w.active.Some? && w.active.value.phase == RollingBackTraffic && w'.active.Some? ==>
              w'.active.value.phase == RollingBackTraffic
  {
    if w.active.Some? && w.active.value.phase == SwitchingTraffic && !cancel && w.retiring == "" {
      at := FirstWith(w.active.value.records, false);
      SwitchTouchesOne(w, setup, a);
    } else if w.active.Some? && w.active.value.phase == RollingBackTraffic && !cancel && w.retiring == "" {
      at := FirstWith(w.active.value.records, true);
      RollbackTouchesOne(w, a);
    } else {
      at := 0;
      OtherwiseRecordsStay(w, setup, cancel, a);
    }
  }

  lemma OtherwiseRecordsStay(w: World, setup: Setup, cancel: bool, a: Answers)
    requires a.listing.Some? ==> IsListing(a.listing.value, w.canvas.links)
    requires cancel || w.retiring != "" || w.active.None?
             || w.active.value.phase !in {SwitchingTraffic, RollingBackTraffic}
    ensures var w' := Reconcile(w, setup, cancel, a);
            w'.active.Some? ==> w.active.Some? && w'.active.value.records == w.active.value.records
  {
    var w' := Reconcile(w, setup, cancel, a);
    if w.retiring != "" || w.active.None? {
      assert w'.active == w.active;
    } else if cancel {
      assert w' == WithRollout(w, w.active.value.(phase := RollingBackTraffic));
    } else if w.active.value.phase == DeployingCandidate {
      assert w' == DeployCandidate(w, a);
    } else if w.active.value.phase == AwaitingReadiness {
      assert w' == AwaitReadiness(w, a);
    } else {
      assert w' == Promote(w, a);
    }
  }

  lemma SwitchTouchesOne(w: World, setup: Setup, a: Answers)
    requires w.active.Some? && (a.listing.Some? ==> IsListing(a.listing.value, w.canvas.links))
    requires !w.active.value.inventoried ==> w.active.value.records == []
    ensures OnlyFlips(w, SwitchTraffic(w, setup, a), FirstWith(w.active.value.records, false))
  {
  }

  lemma RollbackTouchesOne(w: World, a: Answers)
    requires w.active.Some?
    ensures OnlyFlips(w, RollbackTraffic(w, a), FirstWith(w.active.value.records, true))
    ensures RollbackTraffic(w, a).active.Some? ==> RollbackTraffic(w, a).active.value.phase == w.active.value.phase
  {
  }

  // --- nothing is discarded on the way forward -------------------------------------------------

  ghost predicate Forward(w: World) {
    w.promoted || (w.active.Some? && w.active.value.phase != RollingBackTraffic)
  }

  /** Switching discards queued files exactly when the drain timed out under the Drop policy. */
  lemma SwitchDiscards(c: Canvas, r: Record, candidate: string, setup: Setup, now: int, a: Answers)
    requires a.newId !in c.links
    ensures var s := SwitchConnection(c, r, candidate, setup, now, a);
            && (s.canvas.discarded != c.discarded <==>
                  && a.stopOk && a.countOk && r.originalId in c.links && c.links[r.originalId].queued > 0
                  && setup.dropOnTimeout && a.dropOk && DrainExpired(r, setup, now))
            && (!setup.dropOnTimeout && r.originalId in c.links && r.originalId !in s.canvas.links ==>
                  c.links[r.originalId].queued == 0 && r.definition.source.id !in s.canvas.running)
  {
  }

  /** The connection was recorded, its source is now stopped and its queue was empty. */
  ghost predicate DrainedBoundary(w: World, w': World, id: string)
    requires id in w.canvas.links
  {
    && w.active.Some? && w.canvas.links[id].queued == 0
    && exists i :: 0 <= i < |w.active.value.records| && w.active.value.records[i].originalId == id
                   && w.active.value.records[i].definition.source.id !in w'.canvas.running
  }

  /** Under OnDrainTimeout Fail a forward step discards nothing, and it removes only a recorded
      boundary connection whose source it has stopped and whose queue was empty. */
  lemma ForwardStepKeepsQueues(w: World, setup: Setup, cancel: bool, a: Answers)
    requires Faithful(w, a) && !setup.dropOnTimeout && Forward(w) && w.canvas.links.Keys <= w.canvas.used
    requires w.promoted ==> w.active.None?
    ensures var w' := Reconcile(w, setup, cancel, a);
            && w'.canvas.discarded == w.canvas.discarded
            && forall id :: id in w.canvas.links && id !in w'.canvas.links ==> DrainedBoundary(w, w', id)
  {
    var w' := Reconcile(w, setup, cancel, a);
    if w.retiring != "" || w.active.None? || cancel {
      assert w'.canvas == w.canvas;
    } else {
      match w.active.value.phase
      case DeployingCandidate => assert w' == DeployCandidate(w, a) && w'.canvas == w.canvas;
      case AwaitingReadiness => assert w' == AwaitReadiness(w, a) && w'.canvas == w.canvas;
      case SwitchingTraffic => assert w' == SwitchTraffic(w, setup, a); SwitchKeepsQueues(w, setup, a);
      case Promoting => assert w' == Promote(w, a) && w'.canvas.links == w.canvas.links;
    }
  }

  lemma SwitchKeepsQueues(w: World, setup: Setup, a: Answers)
    requires Faithful(w, a) && !setup.dropOnTimeout && w.active.Some? && w.canvas.links.Keys <= w.canvas.used
    ensures var w' := SwitchTraffic(w, setup, a);
            && w'.canvas.discarded == w.canvas.discarded
            && forall id :: id in w.canvas.links && id !in w'.canvas.links ==> DrainedBoundary(w, w', id)
  {
    var ro := w.active.value;
    var i := FirstWith(ro.records, false);
    if ro.inventoried && ro.records != [] && a.portsOk && i < |ro.records| && GreenPort(ro.records[i], setup) != "" {
      SwitchDiscards(w.canvas, ro.records[i], ro.candidate, setup, w.now, a);
      SwitchRemovesOnlyOriginal(w.canvas, ro.records[i], ro.candidate, setup, w.now, a);
    } else {
      assert SwitchTraffic(w, setup, a).canvas.(tracked := w.canvas.tracked) == w.canvas;
    }
  }

  lemma SwitchRemovesOnlyOriginal(c: Canvas, r: Record, candidate: string, setup: Setup, now: int, a: Answers)
    ensures var s := SwitchConnection(c, r, candidate, setup, now, a);
            forall id :: id in c.links && id !in s.canvas.links ==> id == r.originalId
  {
  }

  /** No forward loss: under OnDrainTimeout Fail, up to and including promotion no queued file of
      the boundary has been discarded. */
  lemma {:induction false} NoForwardLoss(run: seq<World>, events: seq<Event>, setup: Setup, n: nat)
    requires IsRun(run, events, setup) && n <= |events| && !setup.dropOnTimeout
    ensures Forward(run[n]) ==> run[n].canvas.discarded == run[0].canvas.discarded
    ensures run[n].promoted ==> run[n].active.None?
  {
    if n > 0 {
      NoForwardLoss(run, events, setup, n - 1);
      var k, gap, hole := RunKeepsShape(run, events, setup, n - 1);
      var w, e, w' := run[n - 1], events[n - 1], run[n];
      assert Next(w, e, w', setup);
      if e.Reconciled? {
        StaysForward(w, setup, e.cancel, e.answers);
        if Forward(w) { ForwardStepKeepsQueues(w, setup, e.cancel, e.answers); }
      }
    }
  }

  lemma StaysForward(w: World, setup: Setup, cancel: bool, a: Answers)
    requires Faithful(w, a) && (w.promoted ==> w.active.None?)
    ensures var w' := Reconcile(w, setup, cancel, a);
            (Forward(w') ==> Forward(w)) && (w'.promoted ==> w'.active.None?)
  {
  }

  // --- where the promises end ------------------------------------------------------------------

  /** Failing to list the candidate's ports aborts without rolling back: the boundary is whole
      at blue exactly when nothing had been switched yet. */
  lemma PortListingAborts(w: World, setup: Setup, a: Answers, k: nat)
    requires w.active.Some? && w.active.value.phase == SwitchingTraffic && w.active.value.inventoried
             && w.active.value.records != []
    requires Faithful(w, a) && !a.portsOk && Shape(w.canvas, w.active.value, setup, 0, k, false, false)
    ensures var w', rs := SwitchTraffic(w, setup, a), w.active.value.records;
            && w'.active.None? && w.active.value.candidate in w'.deleted
            && ((forall i :: 0 <= i < |rs| ==> AtBlue(w'.canvas, rs[i])) <==> k == 0)
  {
    ShapeSwitches(w.canvas, w.active.value, setup, 0, k, false, false);
    assert k > 0 ==> w.active.value.records[0].switched;
  }

  /** On the way back, a failed lookup of the green connection leaves it live beside the restored
      one; the restored connection stands alone exactly when the lookup succeeded. */
  lemma LookupFailureDuplicates(w: World, setup: Setup, a: Answers)
    requires w.active.Some? && w.active.value.phase == RollingBackTraffic
    requires a.newId !in w.canvas.used && w.canvas.links.Keys <= w.canvas.used && a.createOk && a.deleteOk
    requires var i := FirstWith(w.active.value.records, true);
             i < |w.active.value.records|
             && AtGreen(w.canvas, w.active.value.records[i], w.active.value.candidate, setup)
    ensures var i, w' := FirstWith(w.active.value.records, true), RollbackTraffic(w, a);
            && AtBlue(w'.canvas, w'.active.value.records[i])
            && (w.active.value.records[i].greenId !in w'.canvas.links <==> a.getOk)
  {
  }

  /** The duplicate is a second copy of its record: after the restoring step the boundary has no
      second copy exactly when the lookup succeeded. */
  lemma SoleNeedsLookup(w: World, setup: Setup, a: Answers)
    requires w.active.Some? && w.active.value.phase == RollingBackTraffic && Bookkept(w.canvas)
    requires a.newId !in w.canvas.used && a.createOk && a.deleteOk
    requires IdsApart(w.canvas, w.active.value.records) && Sole(w.canvas, w.active.value.records)
    requires var i := FirstWith(w.active.value.records, true);
             && i < |w.active.value.records| && w.active.value.records[i].greenId in w.canvas.tracked
             && AtGreen(w.canvas, w.active.value.records[i], w.active.value.candidate, setup)
    ensures var w' := RollbackTraffic(w, a);
            w'.active.Some? && (Sole(w'.canvas, w'.active.value.records) <==> a.getOk)
  {
    var rs, i := w.active.value.records, FirstWith(w.active.value.records, true);
    var w' := RollbackTraffic(w, a);
    var rs' := w'.active.value.records;
    var (c, removed) := RemoveGreen(w.canvas, rs[i], a);
    if a.getOk {
      SoleKept(w.canvas, c, rs);
      SoleAfterRestore(c, rs, a, i);
    } else {
      var id := rs[i].greenId;
      assert id in w'.canvas.tracked && id in w'.canvas.links;
      forall j | 0 <= j < |rs'| ensures LiveId(rs'[j]) != id {
        assert j != i ==> rs'[j] == rs[j];
      }
      assert id !in LiveIds(rs');
    }
  }

  ghost predicate RenameFails(w: World, e: Event) {
    && e.Reconciled? && !e.cancel && w.retiring == "" && w.active.Some? && w.active.value.phase == Promoting
    && e.answers.getOk && e.answers.startOk && !e.answers.renameOk
  }

  ghost predicate CandidatesAreNew(run: seq<World>, events: seq<Event>, n: nat)
    requires |run| == |events| + 1 && n <= |events|
  {
    forall i :: 0 <= i < n && events[i].Reconciled? ==> events[i].answers.newGroup != run[0].processGroup
  }

  /** The rollout names the same groups, and stays past switching once it is there. */
  ghost predicate SameGroups(ro: Rollout, ro': Rollout) {
    && ro'.blue == ro.blue && ro'.candidate == ro.candidate
    && (ro.phase in {Promoting, RollingBackTraffic} ==> ro'.phase in {Promoting, RollingBackTraffic})
  }

  lemma SwitchKeepsGroups(w: World, setup: Setup, a: Answers)
    requires w.active.Some? && (a.listing.Some? ==> IsListing(a.listing.value, w.canvas.links))
    ensures var w' := SwitchTraffic(w, setup, a);
            w'.active.Some? ==> w'.processGroup == w.processGroup && w'.retiring == w.retiring
                                && w'.active.value.blue == w.active.value.blue
                                && w'.active.value.candidate == w.active.value.candidate
  {
    var w', ro := SwitchTraffic(w, setup, a), w.active.value;
    var i := FirstWith(ro.records, false);
    if !ro.inventoried {
      assert w' == TakeInventory(w, setup, a);
    } else if ro.records != [] && a.portsOk && i < |ro.records| && GreenPort(ro.records[i], setup) != "" {
      assert w' == Attempt(w, setup, a, i);
    } else {
      assert w'.active.Some? ==> w' == WithRollout(w, ro.(phase := w'.active.value.phase));
    }
  }

  lemma RollbackKeepsGroups(w: World, a: Answers)
    requires w.active.Some?
    ensures var w' := RollbackTraffic(w, a);
            w'.active.Some? ==> w'.processGroup == w.processGroup && w'.retiring == w.retiring
                                && w'.active.value.(records := w.active.value.records) == w.active.value
  {
  }

  /** What one reconcile may do to the groups a rollout names. */
  ghost predicate GroupsKept(w: World, w': World, cancel: bool, a: Answers)
    requires w.active.Some?
  {
    w'.active.Some? ==>
      && w'.retiring == "" && w'.active.value.blue == w.active.value.blue
      && (SameGroups(w.active.value, w'.active.value)
          || (w.active.value.phase == DeployingCandidate && w'.active.value.candidate == a.newGroup))
      && w'.processGroup == if RenameFails(w, Reconciled(cancel, a)) then w.active.value.candidate else w.processGroup
  }

  lemma PreludeKeepsGroups(w: World, a: Answers)
    requires w.retiring == "" && w.active.Some?
    ensures w.active.value.phase == DeployingCandidate ==> GroupsKept(w, DeployCandidate(w, a), false, a)
    ensures w.active.value.phase == AwaitingReadiness ==> GroupsKept(w, AwaitReadiness(w, a), false, a)
    ensures w.active.value.phase == Promoting ==> GroupsKept(w, Promote(w, a), false, a)
  {
  }

  lemma GroupsInOneReconcile(w: World, setup: Setup, cancel: bool, a: Answers)
    requires Faithful(w, a) && w.retiring == "" && w.active.Some?
    ensures GroupsKept(w, Reconcile(w, setup, cancel, a), cancel, a)
  {
    var w' := Reconcile(w, setup, cancel, a);
    if cancel {
      assert w' == WithRollout(w, w.active.value.(phase := RollingBackTraffic));
    } else if w.active.value.phase == SwitchingTraffic {
      assert w' == SwitchTraffic(w, setup, a);
      SwitchKeepsGroups(w, setup, a);
    } else if w.active.value.phase == RollingBackTraffic {
      assert w' == RollbackTraffic(w, a);
      RollbackKeepsGroups(w, a);
    } else {
      PreludeKeepsGroups(w, a);
    }
  }

  ghost predicate RenameFailedBefore(run: seq<World>, events: seq<Event>, n: nat)
    requires n <= |events| <= |run|
  {
    exists i :: 0 <= i < n && RenameFails(run[i], events[i])
  }

  /** While a rollout is active the deployment still names blue exactly when no promotion attempt
      has failed at the rename: that attempt already records the candidate as the live group. */
  lemma {:induction false} LiveGroupWhileActive(run: seq<World>, events: seq<Event>, setup: Setup, n: nat)
    requires IsRun(run, events, setup) && n <= |events| && CandidatesAreNew(run, events, n) && run[0].processGroup != ""
    ensures run[n].active.Some? ==>
              && run[n].active.value.blue == run[0].processGroup
              && run[n].active.value.candidate != run[0].processGroup
              && run[n].retiring == ""
              && (run[n].processGroup == run[0].processGroup <==> !RenameFailedBefore(run, events, n))
              && (RenameFailedBefore(run, events, n) ==>
                    run[n].processGroup == run[n].active.value.candidate
                    && run[n].active.value.phase in {Promoting, RollingBackTraffic})
    ensures run[n].active.None? || run[n].retiring == ""
  {
    if n > 0 {
      LiveGroupWhileActive(run, events, setup, n - 1);
      var w, e, w' := run[n - 1], events[n - 1], run[n];
      assert Next(w, e, w', setup);
      if RenameFails(w, e) { assert RenameFailedBefore(run, events, n); }
      if RenameFailedBefore(run, events, n - 1) {
        var i :| 0 <= i < n - 1 && RenameFails(run[i], events[i]);
        assert RenameFailedBefore(run, events, n);
      }
      if e.Reconciled? && w.active.Some? { GroupsInOneReconcile(w, setup, e.cancel, e.answers); }
      assert e.Reconciled? && w.active.None? ==> w'.active.None?;
    }
  }

  /** When a rollback completes, the deployment names blue exactly if no promotion attempt failed at
      the rename before; otherwise it names a group the operator has deleted. */
  lemma LiveGroupAfterRollback(run: seq<World>, events: seq<Event>, setup: Setup, n: nat)
    requires IsRun(run, events, setup) && n < |events| && CandidatesAreNew(run, events, n) && run[0].processGroup != ""
    requires RollbackCompletes(run[n], run[n + 1])
    ensures run[n + 1].processGroup == run[0].processGroup <==> !RenameFailedBefore(run, events, n)
    ensures RenameFailedBefore(run, events, n) ==> run[n + 1].processGroup in run[n + 1].deleted
  {
    LiveGroupWhileActive(run, events, setup, n);
    assert Next(run[n], events[n], run[n + 1], setup);
  }

  // One such end: a group without boundary connections is promoted, the rename fails, the rollout
  // is cancelled, and the rollback completes.

  const NO_PORTS := Setup(map[], map[], map[], map[], 120, false)

  const EMPTY := Canvas(map[], {}, {}, 0, {})

  function Fine(renameOk: bool): (a: Answers) {
    Answers(true, "green", Ready, Some([]), true, true, true, true, true, true, true, "d", true, renameOk, true)
  }

  function At(phase: Phase, candidate: string, inventoried: bool, group: string): (w: World) {
    World(EMPTY, Some(Rollout(phase, candidate, "blue", inventoried, [])), group, "", false, false, {}, 0)
  }

  lemma ForwardExample()
    ensures Next(At(DeployingCandidate, "", false, "blue"), Reconciled(false, Fine(true)),
        At(AwaitingReadiness, "green", false, "blue"), NO_PORTS)
    ensures Next(At(AwaitingReadiness, "green", false, "blue"), Reconciled(false, Fine(true)),
        At(SwitchingTraffic, "green", false, "blue"), NO_PORTS)
    ensures Next(At(SwitchingTraffic, "green", false, "blue"), Reconciled(false, Fine(true)),
        At(SwitchingTraffic, "green", true, "blue"), NO_PORTS)
    ensures Next(At(SwitchingTraffic, "green", true, "blue"), Reconciled(false, Fine(true)),
        At(Promoting, "green", true, "blue"), NO_PORTS)
  {
    assert Track(EMPTY, []) == EMPTY;
  }

  lemma BackwardExample()
    ensures Next(At(Promoting, "green", true, "blue"), Reconciled(false, Fine(false)),
        At(Promoting, "green", true, "green"), NO_PORTS)
    ensures Next(At(Promoting, "green", true, "green"), Reconciled(true, Fine(true)),
        At(RollingBackTraffic, "green", true, "green"), NO_PORTS)
    ensures var end := World(EMPTY, None, "green", "", false, true, {"green"}, 0);
            Next(At(RollingBackTraffic, "green", true, "green"), Reconciled(false, Fine(true)), end, NO_PORTS)
  {
    assert Sources([], false) == {};
    assert EMPTY.(running := EMPTY.running + {}) == EMPTY;
  }

  lemma RenameFailureExample() returns (run: seq<World>, events: seq<Event>)
    ensures IsRun(run, events, NO_PORTS) && |events| == 7 && RollbackCompletes(run[6], run[7])
    ensures run[7].processGroup != run[0].processGroup && run[7].processGroup in run[7].deleted
  {
    run := [At(DeployingCandidate, "", false, "blue"), At(AwaitingReadiness, "green", false, "blue"),
            At(SwitchingTraffic, "green", false, "blue"), At(SwitchingTraffic, "green", true, "blue"),
            At(Promoting, "green", true, "blue"), At(Promoting, "green", true, "green"),
            At(RollingBackTraffic, "green", true, "green"), World(EMPTY, None, "green", "", false, true, {"green"}, 0)];
    var next := Reconciled(false, Fine(true));
    events := [next, next, next, next, Reconciled(false, Fine(false)), Reconciled(true, Fine(true)), next];
    ForwardExample();
    BackwardExample();
    assert "green"[0] != "blue"[0];
  }

  /** When blue is marked for retirement, every recorded connection is live at the candidate, and of
      all the connections recorded or created exactly those whose external end lies in blue still
      reference it. */
  lemma RetiredGroupIsUnreferenced(run: seq<World>, events: seq<Event>, setup: Setup, n: nat)
    requires IsRun(run, events, setup) && n < |events| && CandidatesAreNew(run, events, n) && run[0].processGroup != ""
    requires run[n].retiring == "" && run[n + 1].retiring != ""
    ensures run[n + 1].retiring == run[0].processGroup && run[n].active.Some?
    ensures var rs, c, blue := run[n].active.value.records, run[n + 1].canvas, run[0].processGroup;
            && (forall i :: 0 <= i < |rs| ==>
                  rs[i].greenId in c.links
                  && (References(c.links[rs[i].greenId].component, blue) <==> ExternalEnd(rs[i]).group == blue))
            && (forall id :: id in c.tracked && id in c.links && References(c.links[id].component, blue) ==>
                  exists i :: 0 <= i < |rs| && rs[i].greenId == id && ExternalEnd(rs[i]).group == blue)
  {
    PromotionGate(run, events, setup, n);
    LiveGroupWhileActive(run, events, setup, n);
    var k, gap, hole := RunKeepsShape(run, events, setup, n);
    assert Next(run[n], events[n], run[n + 1], setup);
    var ro, c := run[n].active.value, run[n + 1].canvas;
    forall i | 0 <= i < |ro.records|
      ensures ro.records[i].greenId in c.links
      ensures References(c.links[ro.records[i].greenId].component, ro.blue)
              <==> ExternalEnd(ro.records[i]).group == ro.blue
    {
      StillReferencesBlue(c, ro.records[i], ro.candidate, ro.blue, setup);
    }
    SoleKept(run[n].canvas, c, ro.records);
    forall id | id in c.tracked && id in c.links && References(c.links[id].component, ro.blue)
      ensures exists i ::
                0 <= i < |ro.records| && ro.records[i].greenId == id && ExternalEnd(ro.records[i]).group == ro.blue
    {
      assert id in LiveIds(ro.records);
      var i :| 0 <= i < |ro.records| && LiveId(ro.records[i]) == id;
      assert AtGreen(c, ro.records[i], ro.candidate, setup);
    }
  }
}
