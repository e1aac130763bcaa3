/** Progress of a BlueGreen rollout: with the calls succeeding it is promoted, or rolled back, within
    one reconcile per record and a constant. */
module BlueGreenProgress {
  import opened Text
  import opened BlueGreen
  import opened BlueGreenLaws
  import opened BlueGreenRuns

  /** How many records have this flag. */
  function Count(rs: seq<Record>, flag: bool): (n: nat)
    ensures n <= |rs|
  {
    if rs == [] then 0 else (if rs[0].switched == flag then 1 else 0) + Count(rs[1..], flag)
  }

  lemma {:induction false} CountUpdate(rs: seq<Record>, i: nat, r: Record, flag: bool)
    requires i < |rs| && rs[i].switched == flag && r.switched != flag
    ensures Count(rs[i := r], flag) == Count(rs, flag) - 1
  {
    if i == 0 {
      assert rs[0 := r][1..] == rs[1..];
    } else {
      CountUpdate(rs[1..], i - 1, r, flag);
      assert rs[i := r][1..] == rs[1..][i - 1 := r] && rs[i := r][0] == rs[0];
    }
  }

  lemma {:induction false} CountZero(rs: seq<Record>, flag: bool)
    ensures Count(rs, flag) == 0 <==> FirstWith(rs, flag) == |rs|
  {
    if rs != [] {
      CountZero(rs[1..], flag);
      if rs[0].switched != flag {
        var i := FirstWith(rs[1..], flag);
        FirstIs(rs, flag, i + 1);
      } else {
        FirstIs(rs, flag, 0);
      }
    }
  }

  // --- backward ----------------------------------------------------------------------------------

  ghost predicate RollingBack(w: World) {
    w.retiring == "" && w.active.Some? && w.active.value.phase == RollingBackTraffic
  }

  /** While the rollout stays cancelled, a rollback does not move at all. */
  lemma CancelHolds(w: World, setup: Setup, a: Answers)
    requires RollingBack(w) && (a.listing.Some? ==> IsListing(a.listing.value, w.canvas.links))
    ensures Reconcile(w, setup, true, a) == w
  {
  }

  /** The environment does what it likes, then one reconcile runs, not cancelled, and its deletes and
      creates succeed. */
  ghost predicate BackwardRound(w: World, w': World, setup: Setup) {
    exists m, a :: EnvStep(w, m) && BackwardReconcile(m, w', setup, a)
  }

  ghost predicate BackwardReconcile(m: World, w': World, setup: Setup, a: Answers) {
    Faithful(m, a) && a.deleteOk && a.createOk && w' == Reconcile(m, setup, false, a)
  }

  lemma RollbackAdvances(m: World, setup: Setup, a: Answers)
    requires RollingBack(m) && Faithful(m, a) && a.deleteOk && a.createOk
    ensures var rs, w' := m.active.value.records, Reconcile(m, setup, false, a);
            if Count(rs, true) == 0 then w'.active.None? && w'.rolledBack
            else RollingBack(w') && Count(w'.active.value.records, true) == Count(rs, true) - 1
  {
    var rs, w' := m.active.value.records, Reconcile(m, setup, false, a);
    assert w' == RollbackTraffic(m, a);
    CountZero(rs, true);
    var i := FirstWith(rs, true);
    if i < |rs| {
      var restored := rs[i].(originalId := a.newId, greenId := "", switched := false, drainStartedAt := None);
      CountUpdate(rs, i, restored, true);
    }
  }

  lemma BackwardAdvances(w: World, w': World, setup: Setup)
    requires RollingBack(w) && BackwardRound(w, w', setup)
    ensures var rs := w.active.value.records;
            if Count(rs, true) == 0 then w'.active.None? && w'.rolledBack
            else RollingBack(w') && Count(w'.active.value.records, true) == Count(rs, true) - 1
  {
    var m, a :| EnvStep(w, m) && BackwardReconcile(m, w', setup, a);
    RollbackAdvances(m, setup, a);
  }

  /** A rollback completes in exactly as many rounds as there are switched records, and one more. */
  lemma {:induction false} RollbackCompletesInTime(run: seq<World>, setup: Setup)
    requires |run| > 0 && RollingBack(run[0]) && |run| == Count(run[0].active.value.records, true) + 2
    requires forall i :: 0 <= i < |run| - 1 ==> BackwardRound(run[i], run[i + 1], setup)
    ensures run[|run| - 1].active.None? && run[|run| - 1].rolledBack
    ensures forall i :: 0 <= i < |run| - 1 ==> RollingBack(run[i])
    decreases |run|
  {
    BackwardAdvances(run[0], run[0 + 1], setup);
    if |run| > 2 {
      var rest := run[1..];
      forall i | 0 <= i < |rest| - 1 ensures BackwardRound(rest[i], rest[i + 1], setup) {
        assert BackwardRound(run[i + 1], run[i + 1 + 1], setup);
      }
      RollbackCompletesInTime(rest, setup);
      assert forall i :: 1 <= i < |run| - 1 ==> run[i] == rest[i - 1];
    }
  }

  // --- forward -----------------------------------------------------------------------------------

  /** Switching or promoting, with the boundary whole. */
  ghost predicate GoingForward(w: World, setup: Setup, k: nat) {
    && w.retiring == "" && w.active.Some? && Inv(w, setup, k, false, false)
    && (w.active.value.phase == Promoting || (w.active.value.phase == SwitchingTraffic && w.active.value.inventoried))
  }

  /** Records to switch, then the turn to promotion, then the promotion. */
  ghost function Ahead(w: World): (n: nat)
    requires w.active.Some?
  {
    if w.active.value.phase == Promoting then 1 else 2 + Count(w.active.value.records, false)
  }

  /** The next record has its port at the candidate and its queue has drained. */
  ghost predicate NextIsDrained(m: World, setup: Setup)
    requires m.active.Some?
  {
    var rs := m.active.value.records;
    var k := FirstWith(rs, false);
    k < |rs| ==> && HasGreenPort(rs[k], setup)
                 && (rs[k].originalId in m.canvas.links ==> m.canvas.links[rs[k].originalId].queued == 0)
  }

  predicate AllSucceed(a: Answers) {
    && a.portsOk && a.stopOk && a.countOk && a.getOk && a.deleteOk && a.createOk
    && a.startOk && a.renameOk && a.historyOk
  }

  ghost predicate ForwardRound(w: World, w': World, setup: Setup) {
    exists m, a :: EnvStep(w, m) && ForwardReconcile(m, w', setup, a)
  }

  ghost predicate ForwardReconcile(m: World, w': World, setup: Setup, a: Answers) {
    m.active.Some? && NextIsDrained(m, setup) && Faithful(m, a) && AllSucceed(a) && w' == Reconcile(m, setup, false, a)
  }

  lemma SwitchSucceeds(c: Canvas, r: Record, candidate: string, setup: Setup, now: int, a: Answers)
    requires AtBlue(c, r) && c.links[r.originalId].queued == 0 && AllSucceed(a)
    ensures SwitchConnection(c, r, candidate, setup, now, a).Switched?
    ensures SwitchConnection(c, r, candidate, setup, now, a).record.switched
  {
  }

  lemma AttemptAdvances(m: World, setup: Setup, a: Answers, k: nat)
    requires m.active.Some? && m.active.value.phase == SwitchingTraffic && AllSucceed(a)
    requires k < |m.active.value.records| && !m.active.value.records[k].switched
    requires AtBlue(m.canvas, m.active.value.records[k])
    requires m.canvas.links[m.active.value.records[k].originalId].queued == 0
    ensures var w' := Attempt(m, setup, a, k);
            && w'.active.Some? && w'.active.value.phase == SwitchingTraffic && w'.retiring == m.retiring
            && w'.active.value.inventoried == m.active.value.inventoried
            && Count(w'.active.value.records, false) == Count(m.active.value.records, false) - 1
  {
    var ro := m.active.value;
    SwitchSucceeds(m.canvas, ro.records[k], ro.candidate, setup, m.now, a);
    var s := SwitchConnection(m.canvas, ro.records[k], ro.candidate, setup, m.now, a);
    CountUpdate(ro.records, k, s.record, false);
  }

  lemma ForwardStep(m: World, setup: Setup, a: Answers, k: nat)
    requires GoingForward(m, setup, k) && NextIsDrained(m, setup) && Faithful(m, a) && AllSucceed(a)
    ensures var w' := Reconcile(m, setup, false, a);
            if m.active.value.phase == Promoting then w'.active.None? && w'.promoted
            else && w'.active.Some? && w'.retiring == "" && Ahead(w') == Ahead(m) - 1
                 && (w'.active.value.phase == Promoting
                 || (w'.active.value.phase == SwitchingTraffic && w'.active.value.inventoried))
  {
    var ro, w' := m.active.value, Reconcile(m, setup, false, a);
    if ro.phase == Promoting {
      assert w' == Promote(m, a);
    } else {
      assert w' == SwitchTraffic(m, setup, a);
      CountZero(ro.records, false);
      var j: nat :| Fits(m.canvas, ro, setup, j, k, false, false);
      ShapeSwitches(m.canvas, ro, setup, j, k, false, false);
      FirstIs(ro.records, false, k);
      if k < |ro.records| {
        assert w' == Attempt(m, setup, a, k);
        AttemptAdvances(m, setup, a, k);
      } else {
        assert w' == WithRollout(m, ro.(phase := Promoting));
      }
    }
  }

  lemma ForwardAdvances(w: World, w': World, setup: Setup, k: nat) returns (k': nat)
    requires GoingForward(w, setup, k) && ForwardRound(w, w', setup)
    ensures if w.active.value.phase == Promoting then w'.active.None? && w'.promoted
            else GoingForward(w', setup, k') && Ahead(w') == Ahead(w) - 1
  {
    var m, a :| EnvStep(w, m) && ForwardReconcile(m, w', setup, a);
    EnvKeeps(w, m, setup, k, false, false);
    ForwardStep(m, setup, a, k);
    var gap, hole;
    k', gap, hole := ReconcileKeeps(m, setup, false, a, k, false, false);
  }

  /** A switching rollout whose queues drain and whose calls succeed is promoted in exactly as many
      rounds as there are records left to switch, and two more. */
  lemma {:induction false} PromotedInTime(run: seq<World>, setup: Setup, k: nat)
    requires |run| > 0 && GoingForward(run[0], setup, k) && |run| == Ahead(run[0]) + 1
    requires forall i :: 0 <= i < |run| - 1 ==> ForwardRound(run[i], run[i + 1], setup)
    ensures run[|run| - 1].active.None? && run[|run| - 1].promoted
    decreases |run|
  {
    var k' := ForwardAdvances(run[0], run[0 + 1], setup, k);
    if |run| > 2 {
      var rest := run[1..];
      forall i | 0 <= i < |rest| - 1 ensures ForwardRound(rest[i], rest[i + 1], setup) {
        assert ForwardRound(run[i + 1], run[i + 1 + 1], setup);
      }
      PromotedInTime(rest, setup, k');
    }
  }
}
