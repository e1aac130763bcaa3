/** What single BlueGreen steps do besides moving the boundary: timers, turns, readiness, sources and
    groups, each stated on the fields themselves. */
module BlueGreenSteps {
  import opened Text
  import opened BlueGreen
  import opened BlueGreenLaws
  import opened BlueGreenRuns

  // --- one switch attempt ------------------------------------------------------------------------

  /** The drain timer starts at the first attempt that stops the source and is not moved after. */
  lemma DrainClock(c: Canvas, r: Record, candidate: string, setup: Setup, now: int, a: Answers)
    ensures var started := SwitchConnection(c, r, candidate, setup, now, a).record.drainStartedAt;
            && (r.drainStartedAt.Some? ==> started == r.drainStartedAt)
            && (r.drainStartedAt.None? && a.stopOk ==> started == Some(now))
  {
  }

  /** The queue is empty, or has timed out and is dropped. */
  ghost predicate Drained(c: Canvas, r: Record, setup: Setup, now: int, a: Answers) {
    && r.originalId in c.links
    && (c.links[r.originalId].queued == 0 || (DrainExpired(r, setup, now) && setup.dropOnTimeout && a.dropOk))
  }

  /** The queue still holds files and may go on draining. */
  ghost predicate StillDraining(c: Canvas, r: Record, setup: Setup, now: int) {
    r.originalId in c.links && c.links[r.originalId].queued > 0 && !DrainExpired(r, setup, now)
  }

  /** An attempt switches, waits or fails, each exactly under its condition, and whatever becomes of it
      the source, and nothing else, is stopped. */
  lemma AttemptIff(c: Canvas, r: Record, candidate: string, setup: Setup, now: int, a: Answers)
    ensures var s := SwitchConnection(c, r, candidate, setup, now, a);
            && (s.Switched? <==>
                  && a.stopOk && a.countOk && Drained(c, r, setup, now, a)
                  && a.getOk && a.deleteOk && a.createOk)
            && (s.Draining? <==> a.stopOk && a.countOk && StillDraining(c, r, setup, now))
            && (forall id :: id in s.canvas.running <==>
                  id in c.running && !(a.stopOk && id == r.definition.source.id))
  {
  }

  /** A switching reconcile turns to promotion, turns back, or stays, each exactly under its
      condition. */
  lemma SwitchingTurns(w: World, setup: Setup, a: Answers)
    requires w.active.Some? && w.active.value.phase == SwitchingTraffic && w.active.value.inventoried && a.portsOk
    requires a.listing.Some? ==> IsListing(a.listing.value, w.canvas.links)
    ensures var ro, w' := w.active.value, SwitchTraffic(w, setup, a);
            var k := FirstWith(ro.records, false);
            && w'.active.Some?
            && (w'.active.value.phase == Promoting <==> k == |ro.records|)
            && (w'.active.value.phase == RollingBackTraffic <==>
                  && k < |ro.records|
                  && (|| !HasGreenPort(ro.records[k], setup)
                      || !(&& a.stopOk && a.countOk
                           && (|| StillDraining(w.canvas, ro.records[k], setup, w.now)
                               || (&& Drained(w.canvas, ro.records[k], setup, w.now, a)
                                   && a.getOk && a.deleteOk && a.createOk)))))
  {
    var ro, w' := w.active.value, SwitchTraffic(w, setup, a);
    var k := FirstWith(ro.records, false);
    if k < |ro.records| {
      AttemptIff(w.canvas, ro.records[k], ro.candidate, setup, w.now, a);
      if HasGreenPort(ro.records[k], setup) {
        assert w' == Attempt(w, setup, a, k);
      } else {
        assert w' == WithRollout(w, ro.(phase := RollingBackTraffic));
      }
    } else {
      assert w' == WithRollout(w, ro.(phase := Promoting));
    }
  }

  // --- sources -----------------------------------------------------------------------------------

  /** A promotion that goes through leaves every source of an inbound connection running, and stops
      nothing. */
  lemma PromotionRestartsSources(w: World, a: Answers)
    requires w.active.Some? && a.getOk && a.startOk && a.renameOk
    ensures var rs, w' := w.active.value.records, Promote(w, a);
            && w.canvas.running <= w'.canvas.running
            && (forall i :: 0 <= i < |rs| && rs[i].direction == Inbound ==>
                  rs[i].definition.source.id in w'.canvas.running)
            && (forall id :: id in w'.canvas.running && id !in w.canvas.running ==>
                  exists i :: 0 <= i < |rs| && rs[i].direction == Inbound && rs[i].definition.source.id == id)
  {
    var rs, w' := w.active.value.records, Promote(w, a);
    assert w'.canvas.running == w.canvas.running + Sources(rs, true);
    forall i | 0 <= i < |rs| && rs[i].direction == Inbound ensures rs[i].definition.source.id in Sources(rs, true) {
    }
  }

  /** A promotion is complete exactly when the candidate was read, started and renamed and the success
      is on record: the candidate is then the live group and blue is to be retired. Until then the
      rollout stays where it is. */
  lemma PromotionCompletesIff(w: World, a: Answers)
    requires w.active.Some? && !w.promoted
    ensures var ro, w' := w.active.value, Promote(w, a);
            && (w'.promoted <==> a.getOk && a.startOk && a.renameOk && a.historyOk)
            && (if w'.promoted
                then w'.active.None? && w'.processGroup == ro.candidate && w'.retiring == ro.blue
                else w'.active == w.active && w'.retiring == w.retiring)
            && w'.canvas.links == w.canvas.links && w'.deleted == w.deleted
  {
  }

  /** A completed rollback leaves the source of every recorded connection running, whichever way it
      crosses, and stops nothing. */
  lemma RollbackRestartsSources(w: World, a: Answers)
    requires w.active.Some? && forall i :: 0 <= i < |w.active.value.records| ==> !w.active.value.records[i].switched
    ensures var rs, w' := w.active.value.records, RollbackTraffic(w, a);
            && w'.active.None? && w'.rolledBack && w.canvas.running <= w'.canvas.running
            && (forall i :: 0 <= i < |rs| ==> rs[i].definition.source.id in w'.canvas.running)
            && (forall id :: id in w'.canvas.running && id !in w.canvas.running ==>
                  exists i :: 0 <= i < |rs| && rs[i].definition.source.id == id)
  {
    var rs, w' := w.active.value.records, RollbackTraffic(w, a);
    FirstIs(rs, true, |rs|);
    assert w'.canvas.running == w.canvas.running + Sources(rs, false);
    forall i | 0 <= i < |rs| ensures rs[i].definition.source.id in Sources(rs, false) {
    }
  }

  // --- readiness ---------------------------------------------------------------------------------

  /** A candidate that is waited for goes on exactly when it is ready and is given up exactly when its
      time is over. */
  lemma ReadinessGate(w: World, a: Answers)
    requires w.active.Some? && w.active.value.phase == AwaitingReadiness
    ensures var w' := AwaitReadiness(w, a);
            && (w'.active.None? <==> a.readiness == Expired)
            && (w'.active.None? ==> w.active.value.candidate in w'.deleted)
            && (a.readiness == Ready ==> w'.active == Some(w.active.value.(phase := SwitchingTraffic)))
            && (a.readiness != Ready && a.readiness != Expired ==> w' == w)
  {
  }

  ghost predicate WasReady(run: seq<World>, events: seq<Event>, n: nat)
    requires n <= |events| < |run|
  {
    exists m: nat :: m < n && ReadyAt(run[m], events[m])
  }

  ghost predicate ReadyAt(w: World, e: Event) {
    && w.active.Some? && w.active.value.phase == AwaitingReadiness && w.active.value.candidate != ""
    && e.Reconciled? && e.answers.readiness == Ready
  }

  /** Past the readiness check: inventory taken, switching or promoting. */
  ghost predicate PastReadiness(w: World) {
    w.active.Some? && (w.active.value.inventoried || w.active.value.phase in {SwitchingTraffic, Promoting})
  }

  /** A candidate is known from the moment the rollout leaves its first phase forward. */
  ghost predicate HasCandidate(w: World) {
    w.active.Some? && w.active.value.phase !in {DeployingCandidate, RollingBackTraffic} ==>
      w.active.value.candidate != ""
  }

  ghost predicate ImportsAreNamed(events: seq<Event>) {
    forall i :: 0 <= i < |events| && events[i].Reconciled? && events[i].answers.importOk ==>
      events[i].answers.newGroup != ""
  }

  lemma StepPastReadiness(w: World, setup: Setup, cancel: bool, a: Answers)
    requires Faithful(w, a) && HasCandidate(w) && (a.importOk ==> a.newGroup != "")
    ensures var w' := Reconcile(w, setup, cancel, a);
            && HasCandidate(w')
            && (PastReadiness(w') ==> PastReadiness(w) || ReadyAt(w, Reconciled(cancel, a)))
  {
    var w' := Reconcile(w, setup, cancel, a);
    if w.retiring == "" && w.active.Some? && !cancel {
      match w.active.value.phase
      case DeployingCandidate => assert w' == DeployCandidate(w, a);
      case AwaitingReadiness => assert w' == AwaitReadiness(w, a);
      case SwitchingTraffic => assert w' == SwitchTraffic(w, setup, a); SwitchKeepsGroups(w, setup, a);
      case Promoting => assert w' == Promote(w, a);
      case RollingBackTraffic => assert w' == RollbackTraffic(w, a); RollbackKeepsGroups(w, a);
    }
  }

  /** In every run, no boundary connection is recorded or moved before the candidate was found ready:
      a state past the readiness check has such an event behind it. */
  lemma {:induction false} TrafficMovesOnlyWhenReady(run: seq<World>, events: seq<Event>, setup: Setup, n: nat)
    requires IsRun(run, events, setup) && n <= |events| && ImportsAreNamed(events)
    ensures HasCandidate(run[n]) && (PastReadiness(run[n]) ==> WasReady(run, events, n))
  {
    if n > 0 {
      var m := n - 1;
      TrafficMovesOnlyWhenReady(run, events, setup, m);
      assert Next(run[m], events[m], run[m + 1], setup);
      if WasReady(run, events, m) {
        var i: nat :| i < m && ReadyAt(run[i], events[i]);
        assert i < n;
      }
      if events[m].Reconciled? {
        StepPastReadiness(run[m], setup, events[m].cancel, events[m].answers);
        if ReadyAt(run[m], events[m]) { assert m < n; }
      }
    }
  }

  // --- groups ------------------------------------------------------------------------------------

  /** The candidate is imported once, with the id NiFi answered, and not before the rollout starts. */
  lemma CandidateIsImported(w: World, a: Answers)
    requires w.active.Some? && w.active.value.phase == DeployingCandidate
    ensures var ro, w' := w.active.value, DeployCandidate(w, a);
            && w'.active.Some?
            && (ro.candidate != "" ==> w'.active.value == ro.(phase := AwaitingReadiness))
            && (ro.candidate == "" && a.importOk ==>
                  w'.active.value == ro.(phase := AwaitingReadiness, candidate := a.newGroup))
            && (ro.candidate == "" && !a.importOk ==> w' == w)
  {
  }

  /** Retiring deletes the group that was to be retired, and nothing else. */
  lemma RetiringDeletes(w: World, setup: Setup, cancel: bool, a: Answers)
    requires w.retiring != "" && (a.listing.Some? ==> IsListing(a.listing.value, w.canvas.links))
    ensures var w' := Reconcile(w, setup, cancel, a);
            && w'.retiring == "" && w'.deleted == w.deleted + {w.retiring}
            && w'.canvas == w.canvas && w'.active == w.active
  {
  }

  /** What a step may add to the deleted groups: its candidate, or the group being retired. */
  ghost predicate DeletesAtMost(w: World, w': World) {
    && w.deleted <= w'.deleted
    && (forall g :: g in w'.deleted && g !in w.deleted ==>
          (w.retiring != "" && g == w.retiring) || (w.active.Some? && g == w.active.value.candidate))
    && (w'.promoted != w.promoted ==> w.active.Some? && w.active.value.phase == Promoting && w'.promoted)
    && (w'.retiring != "" ==> w'.retiring == w.retiring || w'.promoted)
  }

  lemma PromotionDeletes(w: World, a: Answers)
    requires w.active.Some? && w.active.value.phase == Promoting
    ensures DeletesAtMost(w, Promote(w, a))
  {
  }

  lemma RollbackDeletes(w: World, a: Answers)
    requires w.active.Some?
    ensures DeletesAtMost(w, RollbackTraffic(w, a))
  {
    var w' := RollbackTraffic(w, a);
    assert w'.deleted == w.deleted || w'.deleted == w.deleted + {w.active.value.candidate};
  }

  lemma StepDeletes(w: World, setup: Setup, cancel: bool, a: Answers)
    requires Faithful(w, a)
    ensures DeletesAtMost(w, Reconcile(w, setup, cancel, a))
  {
    var w' := Reconcile(w, setup, cancel, a);
    if w.retiring == "" && w.active.Some? && !cancel {
      match w.active.value.phase
      case DeployingCandidate => assert w' == DeployCandidate(w, a);
      case AwaitingReadiness => assert w' == AwaitReadiness(w, a);
      case SwitchingTraffic =>
        assert w' == SwitchTraffic(w, setup, a);
        SwitchDeletesGroups(w, setup, a);
      case Promoting =>
        assert w' == Promote(w, a);
        PromotionDeletes(w, a);
      case RollingBackTraffic =>
        assert w' == RollbackTraffic(w, a);
        RollbackDeletes(w, a);
    }
  }

  lemma SwitchDeletesGroups(w: World, setup: Setup, a: Answers)
    requires w.active.Some? && (a.listing.Some? ==> IsListing(a.listing.value, w.canvas.links))
    ensures var w' := SwitchTraffic(w, setup, a);
            && (w'.deleted == w.deleted || w'.deleted == w.deleted + {w.active.value.candidate})
            && w'.promoted == w.promoted && w'.retiring == w.retiring
  {
    var w', ro := SwitchTraffic(w, setup, a), w.active.value;
    var i := FirstWith(ro.records, false);
    if !ro.inventoried {
      assert w' == TakeInventory(w, setup, a);
    } else if ro.records != [] && a.portsOk && i < |ro.records| && GreenPort(ro.records[i], setup) != "" {
      assert w' == Attempt(w, setup, a, i);
    } else {
      assert w' == Abort(w) || w' == WithRollout(w, ro.(phase := Promoting))
             || w' == WithRollout(w, ro.(phase := RollingBackTraffic));
    }
  }

  /** In every run the live group is deleted only after a promotion. */
  lemma {:induction false} BlueDeletedOnlyAfterPromotion(run: seq<World>, events: seq<Event>, setup: Setup, n: nat)
    requires IsRun(run, events, setup) && n <= |events| && CandidatesAreNew(run, events, n)
    requires run[0].processGroup != "" && run[0].processGroup !in run[0].deleted
    ensures run[0].processGroup in run[n].deleted ==> run[n].promoted
    ensures run[n].retiring != "" ==> run[n].promoted
  {
    if n > 0 {
      var m := n - 1;
      BlueDeletedOnlyAfterPromotion(run, events, setup, m);
      LiveGroupWhileActive(run, events, setup, m);
      assert Next(run[m], events[m], run[m + 1], setup);
      if events[m].Reconciled? { StepDeletes(run[m], setup, events[m].cancel, events[m].answers); }
    }
  }
}
