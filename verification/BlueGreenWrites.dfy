/** What a lost status write costs a BlueGreen rollout: the canvas has moved on, the records have
    not. */
module BlueGreenWrites {
  import opened Text
  import opened BlueGreen
  import opened BlueGreenLaws

  /** The world after a reconcile whose status write was lost: what it did outside stays, and what it
      created there is still tracked; what it wanted to record is gone. */
  function Unsaved(w: World, w': World): (r: World) {
    w.(canvas := w'.canvas.(tracked := w.canvas.tracked + (w'.canvas.used - w.canvas.used)), deleted := w'.deleted)
  }

  ghost predicate Answerable(w: World, a: Answers) {
    && a.newId !in w.canvas.used && a.newId != ""
    && (a.listing.Some? ==> IsListing(a.listing.value, w.canvas.links))
  }

  /** A rollback reconcile changes a connection of the first switched record: it deletes the green one,
      or, when the lookup fails, creates the restored one beside it. */
  ghost predicate RollbackActs(w: World, a: Answers)
    requires w.active.Some?
  {
    && w.active.value.phase == RollingBackTraffic
    && FirstWith(w.active.value.records, true) < |w.active.value.records|
    && if a.getOk then a.deleteOk else a.createOk
  }

  /** A reconcile changes the recorded boundary on the canvas. All of it can be read before the
      reconcile. */
  ghost predicate MovesBoundary(w: World, setup: Setup, cancel: bool, a: Answers) {
    && w.retiring == "" && w.active.Some? && !cancel
    && (SwitchDeletes(w, setup, a) || RollbackActs(w, a))
  }

  // --- one record --------------------------------------------------------------------------------

  lemma WholeKept(c: Canvas, c': Canvas, ro: Rollout, setup: Setup)
    requires Whole(c, ro, setup) && c'.used == c.used && c'.tracked == c.tracked && c'.links.Keys == c.links.Keys
    requires forall id :: id in c.links ==> c'.links[id].component == c.links[id].component
    ensures Whole(c', ro, setup)
  {
    assert Sole(c', ro.records);
  }

  lemma AttemptKeepsLinks(c: Canvas, r: Record, candidate: string, setup: Setup, now: int, a: Answers)
    requires a.newId !in c.links && AtBlue(c, r)
    ensures var s := SwitchConnection(c, r, candidate, setup, now, a);
            !Deletes(c, r, setup, now, a) ==>
              && s.canvas.used == c.used && s.canvas.tracked == c.tracked && s.canvas.links.Keys == c.links.Keys
              && forall id :: id in c.links ==> s.canvas.links[id].component == c.links[id].component
  {
  }

  /** A switch attempt whose record stays as it was leaves the boundary whole exactly if nothing was
      deleted. */
  lemma WholeAfterAttempt(c: Canvas, ro: Rollout, setup: Setup, now: int, a: Answers, k: nat, tracked: set<string>)
    requires Bookkept(c) && a.newId !in c.used && Whole(c, ro, setup) && k < |ro.records| && !ro.records[k].switched
    requires var s := SwitchConnection(c, ro.records[k], ro.candidate, setup, now, a);
             tracked == c.tracked + (s.canvas.used - c.used)
    ensures Whole(SwitchConnection(c, ro.records[k], ro.candidate, setup, now, a).canvas.(tracked := tracked), ro,
        setup)
            <==> !Deletes(c, ro.records[k], setup, now, a)
  {
    var r := ro.records[k];
    var s := SwitchConnection(c, r, ro.candidate, setup, now, a);
    assert AtBlue(c, r);
    SwitchFault(c, r, ro.candidate, setup, now, a);
    if Deletes(c, r, setup, now, a) {
      assert !AtBlue(s.canvas, r) && !AtGreen(s.canvas, r, ro.candidate, setup);
    } else {
      AttemptKeepsLinks(c, r, ro.candidate, setup, now, a);
      WholeKept(c, s.canvas.(tracked := tracked), ro, setup);
    }
  }

  /** The canvas of a restoring step on record `i`. */
  function Restoring(c: Canvas, r: Record, a: Answers): (c': Canvas) {
    var (c1, removed) := RemoveGreen(c, r, a);
    if removed && a.createOk then Create(c1, a.newId, r.definition) else c1
  }

  lemma RestoringIsRollback(w: World, a: Answers, i: nat)
    requires w.active.Some? && i < |w.active.value.records| && FirstWith(w.active.value.records, true) == i
    ensures RollbackTraffic(w, a).canvas == Restoring(w.canvas, w.active.value.records[i], a)
    ensures RollbackTraffic(w, a).deleted == w.deleted
  {
  }

  /** A restoring step whose record stays switched leaves the boundary whole exactly if it changed no
      connection. */
  lemma WholeAfterRestore(c: Canvas, ro: Rollout, setup: Setup, a: Answers, i: nat, tracked: set<string>)
    requires Bookkept(c) && a.newId !in c.used && Whole(c, ro, setup) && i < |ro.records| && ro.records[i].switched
    requires tracked == c.tracked + (Restoring(c, ro.records[i], a).used - c.used)
    ensures Whole(Restoring(c, ro.records[i], a).(tracked := tracked), ro, setup)
            <==> !(if a.getOk then a.deleteOk else a.createOk)
  {
    var r, c' := ro.records[i], Restoring(c, ro.records[i], a).(tracked := tracked);
    assert AtGreen(c, r, ro.candidate, setup);
    if a.getOk && a.deleteOk {
      assert r.greenId !in c'.links;
      assert !AtBlue(c', r) && !AtGreen(c', r, ro.candidate, setup);
    } else if !a.getOk && a.createOk {
      assert a.newId in tracked && a.newId in c'.links;
      assert a.newId !in LiveIds(ro.records) by {
        forall j | 0 <= j < |ro.records| ensures LiveId(ro.records[j]) != a.newId {
          assert LiveId(ro.records[j]) in c.used;
        }
      }
    } else {
      WholeKept(c, c', ro, setup);
    }
  }

  // --- every reconcile ---------------------------------------------------------------------------

  lemma QuietPhases(w: World, setup: Setup, a: Answers)
    requires w.active.Some? && Answerable(w, a)
    ensures DeployCandidate(w, a).canvas == AwaitReadiness(w, a).canvas == w.canvas
    ensures Promote(w, a).canvas == w.canvas.(running := Promote(w, a).canvas.running)
    ensures TakeInventory(w, setup, a).canvas == w.canvas.(tracked := TakeInventory(w, setup, a).canvas.tracked)
  {
  }

  /** Only the running components, the records and the history of a canvas may differ. */
  lemma UnsavedWhole(w: World, w': World, setup: Setup)
    requires w.active.Some? && Whole(w.canvas, w.active.value, setup)
    requires w'.canvas == w.canvas.(running := w'.canvas.running, tracked := w'.canvas.tracked)
    ensures Conserved(Unsaved(w, w'), setup)
  {
    assert w.canvas.used - w.canvas.used == {};
    assert w.canvas.tracked + {} == w.canvas.tracked;
    WholeKept(w.canvas, Unsaved(w, w').canvas, w.active.value, setup);
  }

  lemma LostSwitchWrite(w: World, setup: Setup, a: Answers)
    requires w.active.Some? && w.active.value.phase == SwitchingTraffic && Answerable(w, a) && Bookkept(w.canvas)
    requires Whole(w.canvas, w.active.value, setup)
    ensures Conserved(Unsaved(w, SwitchTraffic(w, setup, a)), setup) <==> !SwitchDeletes(w, setup, a)
  {
    var ro, w' := w.active.value, SwitchTraffic(w, setup, a);
    var k := FirstWith(ro.records, false);
    if !ro.inventoried {
      assert w' == TakeInventory(w, setup, a);
      QuietPhases(w, setup, a);
      UnsavedWhole(w, w', setup);
    } else if a.portsOk && k < |ro.records| && GreenPort(ro.records[k], setup) != "" {
      assert w' == Attempt(w, setup, a, k);
      WholeAfterAttempt(w.canvas, ro, setup, w.now, a, k, w.canvas.tracked + (w'.canvas.used - w.canvas.used));
    } else {
      assert w'.canvas == w.canvas;
      UnsavedWhole(w, w', setup);
    }
  }

  lemma LostRollbackWrite(w: World, setup: Setup, a: Answers)
    requires w.active.Some? && w.active.value.phase == RollingBackTraffic && Answerable(w, a) && Bookkept(w.canvas)
    requires Whole(w.canvas, w.active.value, setup)
    ensures Conserved(Unsaved(w, RollbackTraffic(w, a)), setup) <==> !RollbackActs(w, a)
  {
    var ro, w' := w.active.value, RollbackTraffic(w, a);
    var i := FirstWith(ro.records, true);
    if i < |ro.records| {
      RestoringIsRollback(w, a, i);
      WholeAfterRestore(w.canvas, ro, setup, a, i, w.canvas.tracked + (w'.canvas.used - w.canvas.used));
    } else {
      assert w'.canvas == w.canvas.(running := w'.canvas.running);
      UnsavedWhole(w, w', setup);
    }
  }

  /** A lost status write breaks a whole boundary exactly when the reconcile moves it: a switching
      reconcile that deletes the recorded connection, or a restoring step of the rollback. Every
      other reconcile may lose its write. */
  lemma LostWriteBreaksBoundary(w: World, setup: Setup, cancel: bool, a: Answers)
    requires Answerable(w, a) && Bookkept(w.canvas) && Conserved(w, setup)
    ensures Conserved(Unsaved(w, Reconcile(w, setup, cancel, a)), setup) <==> !MovesBoundary(w, setup, cancel, a)
  {
    var w' := Reconcile(w, setup, cancel, a);
    if w.active.Some? {
      if w.retiring != "" || cancel {
        assert w'.canvas == w.canvas;
        UnsavedWhole(w, w', setup);
      } else if w.active.value.phase == SwitchingTraffic {
        assert w' == SwitchTraffic(w, setup, a);
        LostSwitchWrite(w, setup, a);
      } else if w.active.value.phase == RollingBackTraffic {
        assert w' == RollbackTraffic(w, a);
        LostRollbackWrite(w, setup, a);
      } else {
        QuietPhases(w, setup, a);
        assert w' == DeployCandidate(w, a) || w' == AwaitReadiness(w, a) || w' == Promote(w, a);
        UnsavedWhole(w, w', setup);
      }
    }
  }

  // --- the second copy ---------------------------------------------------------------------------

  /** When the lost write is that of a restored connection, the next attempt restores it again: both
      copies are then live with the recorded definition, and only one is on record. */
  lemma RetryDuplicates(w: World, a: Answers, b: Answers)
    requires w.active.Some? && w.active.value.phase == RollingBackTraffic && Bookkept(w.canvas)
    requires a.newId !in w.canvas.used && a.createOk && (a.getOk ==> a.deleteOk)
    requires var i := FirstWith(w.active.value.records, true);
             i < |w.active.value.records| && IdsApart(w.canvas, w.active.value.records)
    requires b.newId !in w.canvas.used + {a.newId} && b.createOk && b.deleteOk
    ensures var w1 := Unsaved(w, RollbackTraffic(w, a));
            var i, w2 := FirstWith(w.active.value.records, true), RollbackTraffic(w1, b);
            && w2.active.Some? && a.newId != b.newId && a.newId in w2.canvas.links && b.newId in w2.canvas.links
            && w2.canvas.links[a.newId].component == w2.canvas.links[b.newId].component
            && w2.canvas.links[b.newId].component == w.active.value.records[i].definition
            && w2.active.value.records[i].originalId == b.newId && !Sole(w2.canvas, w2.active.value.records)
  {
    var rs, i := w.active.value.records, FirstWith(w.active.value.records, true);
    RestoringIsRollback(w, a, i);
    var w1 := Unsaved(w, RollbackTraffic(w, a));
    var w2 := RollbackTraffic(w1, b);
    RestoringIsRollback(w1, b, i);
    SecondCopy(w.canvas, w1.canvas, rs[i], a, b);
    var rs2 := w2.active.value.records;
    forall j | 0 <= j < |rs2| ensures LiveId(rs2[j]) != a.newId {
      if j != i { assert rs2[j] == rs[j] && LiveId(rs[j]) in w.canvas.used; }
    }
    assert a.newId !in LiveIds(rs2);
  }

  lemma SecondCopy(c: Canvas, c1: Canvas, r: Record, a: Answers, b: Answers)
    requires Bookkept(c) && r.greenId in c.used && a.newId !in c.used && b.newId !in c.used + {a.newId}
    requires c1 == Restoring(c, r, a).(tracked := c.tracked + (Restoring(c, r, a).used - c.used))
    requires a.createOk && (a.getOk ==> a.deleteOk) && b.createOk && b.deleteOk
    ensures var c2 := Restoring(c1, r, b);
            && a.newId in c2.links && b.newId in c2.links && a.newId in c2.tracked
            && c2.links[a.newId].component == r.definition == c2.links[b.newId].component
  {
    var (d, removed) := RemoveGreen(c, r, a);
    assert removed && c1.links == d.links[a.newId := Link(r.definition, 0)];
    assert a.newId in c1.used - c.used;
    var (e, again) := RemoveGreen(c1, r, b);
    assert again && a.newId in e.links && e.links[a.newId] == c1.links[a.newId];
  }

  /** A live connection no record names. */
  ghost predicate Orphan(w: World, id: string) {
    && id in w.canvas.links && id in w.canvas.used
    && (w.active.Some? ==> forall i :: 0 <= i < |w.active.value.records| ==>
                             w.active.value.records[i].originalId != id && w.active.value.records[i].greenId != id)
  }

  lemma RollbackLeavesOrphan(w: World, a: Answers, id: string)
    requires w.active.Some? && Orphan(w, id) && a.newId !in w.canvas.used && id != ""
    ensures var w' := RollbackTraffic(w, a);
            Orphan(w', id) && w'.canvas.links[id].component == w.canvas.links[id].component
  {
    var rs, i := w.active.value.records, FirstWith(w.active.value.records, true);
    if i < |rs| {
      var (c, removed) := RemoveGreen(w.canvas, rs[i], a);
      assert rs[i].greenId != id;
      assert id in c.links && c.links[id] == w.canvas.links[id];
    }
  }

  /** The second copy is there for good: no reconcile of the rollback, cancelled or not, removes a
      connection no record names, so a completed rollback leaves it beside the restored one. */
  lemma {:induction false} CopySurvivesRollback(run: seq<World>, cancels: seq<bool>, answers: seq<Answers>,
      setup: Setup, n: nat, id: string)
    requires |run| == |cancels| + 1 == |answers| + 1 && n < |run| && Orphan(run[0], id) && id != ""
    requires run[0].active.Some? && run[0].active.value.phase == RollingBackTraffic && run[0].retiring == ""
    requires forall i :: 0 <= i < |answers| ==>
               Answerable(run[i], answers[i]) && run[i + 1] == Reconcile(run[i], setup, cancels[i], answers[i])
    ensures Orphan(run[n], id) && run[n].canvas.links[id].component == run[0].canvas.links[id].component
    ensures run[n].retiring == "" && (run[n].active.Some? ==> run[n].active.value.phase == RollingBackTraffic)
  {
    if n > 0 {
      CopySurvivesRollback(run, cancels, answers, setup, n - 1, id);
      var w, a := run[n - 1], answers[n - 1];
      assert run[n - 1 + 1] == Reconcile(w, setup, cancels[n - 1], a);
      if w.active.Some? && !cancels[n - 1] {
        assert run[n] == RollbackTraffic(w, a);
        RollbackLeavesOrphan(w, a, id);
      }
    }
  }

  // --- examples ----------------------------------------------------------------------------------

  // A single inbound connection: recorded at blue as "c", switched to the candidate as "g".

  const BOUNDARY := Component(Connectable("p", Processor, "root"), Connectable("i", InputPort, "blue"), "")

  const ONE_PORT := Setup(map["i" := "in"], map[], map["in" := "j"], map[], 120, false)

  function Fine(newId: string): (a: Answers) {
    Answers(true, "", Ready, None, true, true, true, true, true, true, true, newId, true, true, true)
  }

  /** A switching reconcile that loses its write breaks the boundary. */
  lemma LostSwitchExample() returns (w: World)
    ensures Answerable(w, Fine("d")) && Bookkept(w.canvas) && Conserved(w, ONE_PORT) && w.active.Some?
    ensures w.active.value.phase == SwitchingTraffic
    ensures !Conserved(Unsaved(w, Reconcile(w, ONE_PORT, false, Fine("d"))), ONE_PORT)
  {
    var record := Record(Inbound, "in", "c", BOUNDARY, false, "", None);
    var canvas := Canvas(map["c" := Link(BOUNDARY, 0)], {"c"}, {}, 0, {"c"});
    w :=
        World(canvas, Some(Rollout(SwitchingTraffic, "green", "blue", true, [record])), "blue", "", false, false, {},
            0);
    var rs := w.active.value.records;
    assert "c"[0] != "d"[0];
    assert FirstWith(rs, false) == 0 && LiveId(rs[0]) == "c" && "c" in LiveIds(rs);
    assert AtBlue(canvas, rs[0]) && GreenPort(rs[0], ONE_PORT) == "j";
    assert SwitchDeletes(w, ONE_PORT, Fine("d"));
    LostWriteBreaksBoundary(w, ONE_PORT, false, Fine("d"));
  }

  function Switched(): (r: Record) {
    Record(Inbound, "in", "c", BOUNDARY, true, "g", None)
  }

  function BackAtBlue(id: string): (r: Record) {
    Record(Inbound, "in", id, BOUNDARY, false, "", None)
  }

  function Reverting(c: Canvas, r: Record): (w: World) {
    World(c, Some(Rollout(RollingBackTraffic, "green", "blue", true, [r])), "blue", "", false, false, {}, 0)
  }

  const AT_GREEN :=
    Canvas(map["g" := Link(GreenComponent(Switched(), "green", ONE_PORT), 0)], {"c", "g"}, {}, 0, {"c", "g"})

  const RESTORED := Canvas(map["d" := Link(BOUNDARY, 0)], {"c", "g", "d"}, {}, 0, {"c", "g", "d"})

  const TWICE :=
    Canvas(map["d" := Link(BOUNDARY, 0), "e" := Link(BOUNDARY, 0)], {"c", "g", "d", "e"}, {}, 0, {"c", "g", "d", "e"})

  lemma FirstRestore()
    ensures RollbackTraffic(Reverting(AT_GREEN, Switched()), Fine("d")) == Reverting(RESTORED, BackAtBlue("d"))
    ensures Unsaved(Reverting(AT_GREEN, Switched()), Reverting(RESTORED, BackAtBlue("d")))
            == Reverting(RESTORED, Switched())
  {
    assert "g"[0] != "c"[0] && "d"[0] != "c"[0] && "d"[0] != "g"[0];
    var w := Reverting(AT_GREEN, Switched());
    var rs := w.active.value.records;
    assert FirstWith(rs, true) == 0 && rs[0 := BackAtBlue("d")] == [BackAtBlue("d")];
    assert Delete(AT_GREEN, "g").links == map[];
    assert RemoveGreen(AT_GREEN, Switched(), Fine("d")) == (Delete(AT_GREEN, "g"), true);
    assert Create(Delete(AT_GREEN, "g"), "d", BOUNDARY) == RESTORED;
    assert RESTORED.used - AT_GREEN.used == {"d"};
  }

  lemma SecondRestore()
    ensures RollbackTraffic(Reverting(RESTORED, Switched()), Fine("e")) == Reverting(TWICE, BackAtBlue("e"))
  {
    assert "g"[0] != "d"[0] && "e"[0] != "d"[0];
    var w := Reverting(RESTORED, Switched());
    var rs := w.active.value.records;
    assert FirstWith(rs, true) == 0 && rs[0 := BackAtBlue("e")] == [BackAtBlue("e")];
    assert RemoveGreen(RESTORED, Switched(), Fine("e")) == (RESTORED, true);
    assert Create(RESTORED, "e", BOUNDARY) == TWICE;
  }

  /** A restoring step loses its write, is retried, and the rollback completes with two copies of the
      one blue connection. */
  lemma LostRestoreExample() returns (w: World, end: World)
    ensures Answerable(w, Fine("d")) && Bookkept(w.canvas) && Conserved(w, ONE_PORT) && w.active.Some?
    ensures var w1 := Unsaved(w, RollbackTraffic(w, Fine("d")));
            && w1.active.Some? && RollbackTraffic(w1, Fine("e")).active.Some?
            && end == RollbackTraffic(RollbackTraffic(w1, Fine("e")), Fine("f"))
    ensures end.active.None? && end.rolledBack
    ensures end.canvas.links == map["d" := Link(BOUNDARY, 0), "e" := Link(BOUNDARY, 0)] && "d" != "e"
  {
    w := Reverting(AT_GREEN, Switched());
    assert "g"[0] != "c"[0] && "d"[0] != "c"[0] && "d"[0] != "g"[0] && "d"[0] != "e"[0];
    assert LiveId(w.active.value.records[0]) == "g" && "g" in LiveIds(w.active.value.records);
    assert GreenPort(Switched(), ONE_PORT) == "j";
    assert AtGreen(AT_GREEN, Switched(), "green", ONE_PORT);
    FirstRestore();
    SecondRestore();
    var w2 := Reverting(TWICE, BackAtBlue("e"));
    assert FirstWith(w2.active.value.records, true) == 1;
    end := RollbackTraffic(w2, Fine("f"));
  }
}
