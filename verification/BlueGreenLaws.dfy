/** What every BlueGreen run keeps: the recorded boundary stays live, switched records form an
    interval, promotion happens only with everything switched, and nothing is discarded on the
    way forward. */
module BlueGreenLaws {
  import opened Text
  import opened BlueGreen

  // --- where a recorded connection is ----------------------------------------------------------

  /** Live against blue exactly as it was recorded. */
  ghost predicate AtBlue(c: Canvas, r: Record) {
    !r.switched && r.originalId in c.links && c.links[r.originalId].component == r.definition
  }

  /** The recorded connection with nothing but its deployment end moved: into the candidate's input port
      of the recorded name, or out of its output port of that name. */
  ghost predicate Repointed(c: Component, r: Record, candidate: string, setup: Setup) {
    && c.settings == r.definition.settings
    && match r.direction
       case Inbound => && c.source == r.definition.source
                       && r.portName in setup.greenInputs && setup.greenInputs[r.portName] != ""
                       && c.destination.id == setup.greenInputs[r.portName]
                       && c.destination.kind == InputPort && c.destination.group == candidate
       case Outbound => && c.destination == r.definition.destination
                        && r.portName in setup.greenOutputs && setup.greenOutputs[r.portName] != ""
                        && c.source.id == setup.greenOutputs[r.portName]
                        && c.source.kind == OutputPort && c.source.group == candidate
  }

  /** Live once, with its deployment end at the candidate's same-named port. */
  ghost predicate AtGreen(c: Canvas, r: Record, candidate: string, setup: Setup) {
    && r.switched && r.originalId !in c.links && r.greenId != ""
    && r.greenId in c.links && Repointed(c.links[r.greenId].component, r, candidate, setup)
  }

  /** Between delete and create on the way back; the create is retried. */
  ghost predicate Detached(c: Canvas, r: Record) {
    r.switched && r.greenId !in c.links && r.originalId !in c.links
  }

  /** Deleted on the way forward and never recreated. */
  ghost predicate Lost(c: Canvas, r: Record) {
    !r.switched && r.originalId !in c.links
  }

  function LiveId(r: Record): (id: string) {
    if r.switched then r.greenId else r.originalId
  }

  ghost predicate IdsApart(c: Canvas, rs: seq<Record>) {
    && (forall i :: 0 <= i < |rs| ==> LiveId(rs[i]) in c.used && rs[i].originalId in c.used)
    && (forall i, j :: 0 <= i < j < |rs| ==> LiveId(rs[i]) != LiveId(rs[j]))
  }

  ghost function LiveIds(rs: seq<Record>): (r: set<string>) {
    set i | 0 <= i < |rs| :: LiveId(rs[i])
  }

  /** Of all the connections ever recorded or created, only the records' own are still there: no
      record has a second copy. */
  ghost predicate Sole(c: Canvas, rs: seq<Record>) {
    forall id :: id in c.tracked && id in c.links ==> id in LiveIds(rs)
  }

  /** Records up to `j` are back at blue, the interval from `j` to `k` is switched, the rest is
      still at blue. Only two exceptions can exist, both caused by a failed create: the first
      switched record may be detached (`gap`), and the first never-switched one lost (`hole`). */
  ghost predicate Shape(c: Canvas, ro: Rollout, setup: Setup, j: nat, k: nat, gap: bool, hole: bool) {
    var rs := ro.records;
    && j <= k <= |rs| && (gap ==> j < k) && (hole ==> k < |rs|)
    && IdsApart(c, rs)
    && (forall i :: 0 <= i < j ==> AtBlue(c, rs[i]))
    && (forall i :: j <= i < k ==> if gap && i == j then Detached(c, rs[i]) else AtGreen(c, rs[i], ro.candidate, setup))
    && (forall i :: k <= i < |rs| ==> if hole && i == k then Lost(c, rs[i]) else AtBlue(c, rs[i]))
  }

  /** Which shapes a phase admits. */
  ghost predicate PhaseShape(ro: Rollout, j: nat, k: nat, gap: bool, hole: bool) {
    match ro.phase
    case DeployingCandidate => ro.records == [] && !ro.inventoried
    case AwaitingReadiness => ro.records == [] && !ro.inventoried
    case SwitchingTraffic => j == 0 && !gap && !hole && (!ro.inventoried ==> ro.records == [])
    case Promoting => j == 0 && k == |ro.records| && !gap && !hole
    case RollingBackTraffic => true
  }

  ghost predicate Fits(c: Canvas, ro: Rollout, setup: Setup, j: nat, k: nat, gap: bool, hole: bool) {
    Shape(c, ro, setup, j, k, gap, hole) && PhaseShape(ro, j, k, gap, hole)
  }

  /** The boundary is whole: every recorded connection is live exactly once, at blue if not
      switched and at the candidate if switched. Distinct records have distinct connections, and
      nothing else that was recorded or created is live. */
  ghost predicate Whole(c: Canvas, ro: Rollout, setup: Setup) {
    && IdsApart(c, ro.records) && Sole(c, ro.records)
    && forall i :: 0 <= i < |ro.records| ==> AtBlue(c, ro.records[i]) || AtGreen(c, ro.records[i], ro.candidate, setup)
  }

  ghost predicate Conserved(w: World, setup: Setup) {
    w.active.Some? ==> Whole(w.canvas, w.active.value, setup)
  }

  // --- frames ----------------------------------------------------------------------------------

  /** No used id comes back, and the used ids other than `ids` keep their connection. */
  ghost predicate Keeps(c: Canvas, c': Canvas, ids: set<string>) {
    && c.used <= c'.used
    && (forall id :: id in c.used && id !in c.links ==> id !in c'.links)
    && (forall id :: id in c.links && id !in ids ==> id in c'.links && c'.links[id].component == c.links[id].component)
  }

  lemma SwitchedKeeps(c: Canvas, r: Record, candidate: string, setup: Setup, now: int, a: Answers)
    requires c.links.Keys <= c.used && r.originalId in c.used && a.newId !in c.used
    ensures var s := SwitchConnection(c, r, candidate, setup, now, a);
            && Keeps(c, s.canvas, {r.originalId}) && s.canvas.links.Keys <= s.canvas.used
            && s.record.(drainStartedAt := r.drainStartedAt, greenId := r.greenId, switched := r.switched) == r
  {
  }

  /** A record that is now switched has its new connection at the candidate's same-named port. */
  ghost predicate SwitchedTo(c: Canvas, r: Record, candidate: string, setup: Setup, id: string) {
    r.switched && HasGreenPort(r, setup) ==>
      r.greenId == id && id in c.links && Repointed(c.links[id].component, r, candidate, setup)
  }

  lemma SwitchRepoints(c: Canvas, r: Record, candidate: string, setup: Setup, now: int, a: Answers)
    ensures var s := SwitchConnection(c, r, candidate, setup, now, a);
            !r.switched ==> SwitchedTo(s.canvas, s.record, candidate, setup, a.newId)
  {
  }

  /** What one switch attempt leaves behind for a record that was at blue. */
  lemma SwitchedRecord(c: Canvas, r: Record, candidate: string, setup: Setup, now: int, a: Answers)
    requires c.links.Keys <= c.used && r.originalId in c.used && a.newId !in c.used && a.newId != ""
    requires AtBlue(c, r) && GreenPort(r, setup) != ""
    ensures var s := SwitchConnection(c, r, candidate, setup, now, a);
            && (s.Draining? ==> AtBlue(s.canvas, s.record) && s.record.originalId == r.originalId)
            && (s.Switched? ==>
              AtGreen(s.canvas, s.record, candidate, setup) && s.record.greenId == a.newId && a.newId in s.canvas.used)
            && (s.Failed? ==> s.record.originalId == r.originalId
                              && if !a.createOk && s.record.originalId !in s.canvas.links
                                 then Lost(s.canvas, s.record) else AtBlue(s.canvas, s.record))
  {
    var s := SwitchConnection(c, r, candidate, setup, now, a);
    assert GreenPort(s.record, setup) == GreenPort(r, setup);
  }

  lemma KeptRecords(c: Canvas, c': Canvas, rs: seq<Record>, candidate: string, setup: Setup, ids: set<string>, i: nat)
    requires Keeps(c, c', ids) && i < |rs| && IdsApart(c, rs) && LiveId(rs[i]) !in ids
    ensures AtBlue(c, rs[i]) ==> AtBlue(c', rs[i])
    ensures AtGreen(c, rs[i], candidate, setup) ==> AtGreen(c', rs[i], candidate, setup)
    ensures Detached(c, rs[i]) ==> Detached(c', rs[i])
    ensures Lost(c, rs[i]) ==> Lost(c', rs[i])
  {
  }

  /** Replacing record `at` while only its own connection changed: the others stay where they
      were, and ids stay apart as long as the new live id is the old one or brand new. */
  lemma ReplacedRecord(c: Canvas, c': Canvas, rs: seq<Record>, at: nat, r: Record)
    requires at < |rs| && IdsApart(c, rs) && c.used <= c'.used
    requires r.originalId in c'.used && LiveId(r) in c'.used
    requires LiveId(r) == LiveId(rs[at]) || LiveId(r) !in c.used
    ensures IdsApart(c', rs[at := r])
  {
  }

  lemma FirstIs(rs: seq<Record>, flag: bool, i: nat)
    requires i <= |rs| && (i < |rs| ==> rs[i].switched == flag)
    requires forall j :: 0 <= j < i ==> rs[j].switched != flag
    ensures FirstWith(rs, flag) == i
  {
  }

  /** In every shape the switched records are exactly the interval. */
  lemma ShapeSwitches(c: Canvas, ro: Rollout, setup: Setup, j: nat, k: nat, gap: bool, hole: bool)
    requires Shape(c, ro, setup, j, k, gap, hole)
    ensures forall i :: 0 <= i < |ro.records| ==> (ro.records[i].switched <==> j <= i < k)
  {
  }

  // --- one reconcile keeps the invariant -------------------------------------------------------

  /** The server allocates fresh connection ids, and a lookup on the way back does not fail. */
  ghost predicate Faithful(w: World, a: Answers) {
    && a.newId !in w.canvas.used && a.newId != ""
    && (a.listing.Some? ==> IsListing(a.listing.value, w.canvas.links))
    && (w.active.Some? && w.active.value.phase == RollingBackTraffic ==> a.getOk)
  }

  lemma {:induction false} InventoryAtBlue(c: Canvas, listing: seq<string>, blue: string, setup: Setup)
    requires c.links.Keys <= c.used
    requires forall i :: 0 <= i < |listing| ==> listing[i] in c.links
    requires forall i, j :: 0 <= i < j < |listing| ==> listing[i] != listing[j]
    requires Inventory(c.links, listing, blue, setup).Some?
    ensures var rs := Inventory(c.links, listing, blue, setup).value;
            && IdsApart(c, rs) && (forall i :: 0 <= i < |rs| ==> AtBlue(c, rs[i]) && rs[i].originalId in listing)
  {
    if listing != [] {
      var last := |listing| - 1;
      var before := listing[..last];
      InventoryAtBlue(c, before, blue, setup);
      var rs := Inventory(c.links, before, blue, setup).value;
      forall i | 0 <= i < |rs| ensures rs[i].originalId != listing[last] && rs[i].originalId in listing {
        var k :| 0 <= k < |before| && before[k] == rs[i].originalId;
        assert listing[k] == before[k];
      }
    }
  }

  /** The connection ends in a named input port of blue. */
  ghost predicate Enters(c: Component, blue: string, setup: Setup) {
    && c.destination.group == blue && c.destination.kind == InputPort
    && c.destination.id in setup.blueInputs && setup.blueInputs[c.destination.id] != ""
  }

  /** The connection starts at a named output port of blue and does not end in an input port of it. */
  ghost predicate Leaves(c: Component, blue: string, setup: Setup) {
    && !(c.destination.group == blue && c.destination.kind == InputPort)
    && c.source.group == blue && c.source.kind == OutputPort
    && c.source.id in setup.blueOutputs && setup.blueOutputs[c.source.id] != ""
  }

  /** It enters blue from something that cannot be stopped. */
  ghost predicate Unstoppable(c: Component, blue: string, setup: Setup) {
    Enters(c, blue, setup) && c.source.kind != Processor && c.source.kind != InputPort && c.source.kind != OutputPort
  }

  lemma ClassifyExact(c: Component, blue: string, setup: Setup)
    ensures var b := Classify(c, blue, setup);
            && (b.Unsupported? <==> Unstoppable(c, blue, setup))
            && (b.Crossing? <==> !b.Unsupported? && (Enters(c, blue, setup) || Leaves(c, blue, setup)))
            && (b.Crossing? && Enters(c, blue, setup) ==> b == Crossing(Inbound, setup.blueInputs[c.destination.id]))
            && (b.Crossing? && Leaves(c, blue, setup) ==> b == Crossing(Outbound, setup.blueOutputs[c.source.id]))
  {
  }

  /** The inventory records exactly the connections that cross blue's edge, each once, in listing
      order, with its definition, direction and port: record i is the connection at `at[i]`. It
      refuses exactly when one of them has a source that cannot be stopped. */
  lemma {:induction false} InventoryExact(links: map<string, Link>, listing: seq<string>, blue: string, setup: Setup)
    returns (at: seq<nat>)
    requires forall i :: 0 <= i < |listing| ==> listing[i] in links
    ensures var r := Inventory(links, listing, blue, setup);
            && (r.None? <==> exists i :: 0 <= i < |listing| && Unstoppable(links[listing[i]].component, blue, setup))
            && (r.Some? ==> Enumerates(r.value, at, links, listing, blue, setup))
  {
    if listing == [] {
      at := [];
    } else {
      var last := |listing| - 1;
      var before := listing[..last];
      var were := InventoryExact(links, before, blue, setup);
      assert forall i :: 0 <= i < last ==> before[i] == listing[i];
      ClassifyExact(links[listing[last]].component, blue, setup);
      at := were;
      var rs := Inventory(links, before, blue, setup);
      if rs.Some? {
        if Classify(links[listing[last]].component, blue, setup).Crossing? { at := were + [last]; }
        EnumeratesMore(rs.value, were, links, listing, blue, setup);
      }
    }
  }

  lemma EnumeratesMore(rs: seq<Record>, at: seq<nat>, links: map<string, Link>, listing: seq<string>, blue: string,
                       setup: Setup)
    requires listing != [] && (forall i :: 0 <= i < |listing| ==> listing[i] in links)
    requires Enumerates(rs, at, links, listing[..|listing| - 1], blue, setup)
    ensures var last := |listing| - 1;
            var c := links[listing[last]].component;
            var b := Classify(c, blue, setup);
            && (b.Crossing? ==>
                  Enumerates(rs + [Recorded(listing[last], c, b)], at + [last], links, listing, blue, setup))
            && (b.Unrelated? ==> Enumerates(rs, at, links, listing, blue, setup))
  {
    var last := |listing| - 1;
    var before, c := listing[..last], links[listing[last]].component;
    ClassifyExact(c, blue, setup);
    assert forall i :: 0 <= i < |before| ==> before[i] == listing[i];
    assert forall i :: 0 <= i < |at| ==> RecordedAt(rs[i], at[i], links, before, blue, setup);
    var b := Classify(c, blue, setup);
    if b.Crossing? { assert RecordedAt(Recorded(listing[last], c, b), last, links, listing, blue, setup); }
  }

  /** The records are those of the listed connections at the positions `at`, which are all the
      positions of crossing connections, in order. */
  ghost predicate Enumerates(rs: seq<Record>, at: seq<nat>, links: map<string, Link>, listing: seq<string>,
                             blue: string, setup: Setup)
    requires forall i :: 0 <= i < |listing| ==> listing[i] in links
  {
    && |at| == |rs|
    && (forall i, j :: 0 <= i < j < |at| ==> at[i] < at[j])
    && (forall i :: 0 <= i < |at| ==> RecordedAt(rs[i], at[i], links, listing, blue, setup))
    && (forall k :: 0 <= k < |listing|
                    && (|| Enters(links[listing[k]].component, blue, setup)
                        || Leaves(links[listing[k]].component, blue, setup))
                    ==> k in at)
  }

  /** A fresh record of the listed connection: which way it crosses, and the name of blue's port. */
  ghost predicate RecordedAt(r: Record, k: nat, links: map<string, Link>, listing: seq<string>, blue: string,
                             setup: Setup)
    requires forall i :: 0 <= i < |listing| ==> listing[i] in links
  {
    && k < |listing| && r.originalId == listing[k] && r.definition == links[listing[k]].component
    && !r.switched && r.greenId == "" && r.drainStartedAt.None?
    && var c := r.definition;
       if Enters(c, blue, setup) then r.direction == Inbound && r.portName == setup.blueInputs[c.destination.id]
       else Leaves(c, blue, setup) && r.direction == Outbound && r.portName == setup.blueOutputs[c.source.id]
  }

  lemma AttemptShape(w: World, setup: Setup, a: Answers, k: nat)
    requires w.active.Some? && w.active.value.phase == SwitchingTraffic && w.active.value.inventoried
    requires Faithful(w, a) && w.canvas.links.Keys <= w.canvas.used
    requires Shape(w.canvas, w.active.value, setup, 0, k, false, false) && k < |w.active.value.records|
    requires GreenPort(w.active.value.records[k], setup) != ""
    ensures var w' := Attempt(w, setup, a, k);
            var s := SwitchConnection(w.canvas, w.active.value.records[k], w.active.value.candidate, setup, w.now, a);
            && w'.canvas == s.canvas && w'.canvas.links.Keys <= w'.canvas.used && w'.active.Some?
            && w'.active.value.records == w.active.value.records[k := s.record]
            && Fits(w'.canvas, w'.active.value, setup, 0, if s.Switched? then k + 1 else k, false,
                    s.Failed? && s.record.originalId !in s.canvas.links)
  {
    SwitchedShape(w.canvas, w.active.value, Attempt(w, setup, a, k).active.value, setup, w.now, a, k);
  }

  /** One switch attempt on the first unswitched record `k` moves the shape on by that record only. */
  lemma SwitchedShape(c: Canvas, ro: Rollout, ro': Rollout, setup: Setup, now: int, a: Answers, k: nat)
    requires c.links.Keys <= c.used && a.newId !in c.used && a.newId != ""
    requires Shape(c, ro, setup, 0, k, false, false) && k < |ro.records| && GreenPort(ro.records[k], setup) != ""
    requires ro'.records == ro.records[k := SwitchConnection(c, ro.records[k], ro.candidate, setup, now, a).record]
             && ro'.candidate == ro.candidate
    ensures var s := SwitchConnection(c, ro.records[k], ro.candidate, setup, now, a);
            && s.canvas.links.Keys <= s.canvas.used
            && Shape(s.canvas, ro', setup, 0, if s.Switched? then k + 1 else k, false,
                     s.Failed? && s.record.originalId !in s.canvas.links)
            && (s.Failed? && s.record.originalId !in s.canvas.links ==> !a.createOk)
  {
    var rs := ro.records;
    var s := SwitchConnection(c, rs[k], ro.candidate, setup, now, a);
    SwitchedKeeps(c, rs[k], ro.candidate, setup, now, a);
    SwitchedRecord(c, rs[k], ro.candidate, setup, now, a);
    ReplacedRecord(c, s.canvas, rs, k, s.record);
    forall i | 0 <= i < |rs| && i != k
      ensures i < k ==> AtGreen(s.canvas, ro'.records[i], ro.candidate, setup)
      ensures i > k ==> AtBlue(s.canvas, ro'.records[i])
    {
      KeptRecords(c, s.canvas, rs, ro.candidate, setup, {rs[k].originalId}, i);
    }
  }

  lemma RemovedGreen(c: Canvas, r: Record, candidate: string, setup: Setup, a: Answers)
    requires c.links.Keys <= c.used && r.greenId in c.used && r.originalId in c.used && a.getOk
    requires AtGreen(c, r, candidate, setup) || Detached(c, r)
    ensures var (c', removed) := RemoveGreen(c, r, a);
            && Keeps(c, c', {r.greenId}) && c'.used == c.used && c'.links.Keys <= c.links.Keys
            && (removed ==> Detached(c', r))
            && (!removed ==> AtGreen(c', r, candidate, setup))
  {
  }

  lemma RollbackStepShape(w: World, setup: Setup, a: Answers, j: nat, k: nat, gap: bool, hole: bool)
    requires w.active.Some? && w.active.value.phase == RollingBackTraffic
    requires Faithful(w, a) && w.canvas.links.Keys <= w.canvas.used
    requires Shape(w.canvas, w.active.value, setup, j, k, gap, hole) && j < k
    ensures var w' := RollbackTraffic(w, a);
            && w'.canvas.links.Keys <= w'.canvas.used && w'.active.Some?
            && exists j': nat, gap' ::
              Fits(w'.canvas, w'.active.value, setup, j', k, gap', hole) && (a.createOk && !gap ==> !gap')
  {
    var ro := w.active.value;
    var rs := ro.records;
    ShapeSwitches(w.canvas, ro, setup, j, k, gap, hole);
    FirstIs(rs, true, j);
    var (c, removed) := RemoveGreen(w.canvas, rs[j], a);
    RemovedShape(w.canvas, ro, setup, a, j, k, gap, hole);
    var w' := RollbackTraffic(w, a);
    if removed && a.createOk {
      RestoredShape(c, ro, setup, a, j, k, hole);
      assert Fits(w'.canvas, w'.active.value, setup, j + 1, k, false, hole);
    } else {
      assert Fits(w'.canvas, w'.active.value, setup, j, k, removed, hole);
    }
  }

  lemma RemovedShape(c: Canvas, ro: Rollout, setup: Setup, a: Answers, j: nat, k: nat, gap: bool, hole: bool)
    requires c.links.Keys <= c.used && Shape(c, ro, setup, j, k, gap, hole) && j < k && a.getOk
    ensures var (c', removed) := RemoveGreen(c, ro.records[j], a);
            Shape(c', ro, setup, j, k, removed, hole) && c'.links.Keys <= c'.used == c.used
  {
    var rs := ro.records;
    var (c', removed) := RemoveGreen(c, rs[j], a);
    RemovedGreen(c, rs[j], ro.candidate, setup, a);
    forall i | 0 <= i < |rs| && i != j
      ensures AtBlue(c, rs[i]) ==> AtBlue(c', rs[i])
      ensures AtGreen(c, rs[i], ro.candidate, setup) ==> AtGreen(c', rs[i], ro.candidate, setup)
      ensures Lost(c, rs[i]) ==> Lost(c', rs[i])
    {
      KeptRecords(c, c', rs, ro.candidate, setup, {rs[j].greenId}, i);
    }
    assert IdsApart(c', rs);
  }

  lemma RestoredShape(c: Canvas, ro: Rollout, setup: Setup, a: Answers, j: nat, k: nat, hole: bool)
    requires a.newId !in c.used && c.links.Keys <= c.used && j < k
    requires Shape(c, ro, setup, j, k, true, hole)
    ensures var restored :=
              ro.records[j].(originalId := a.newId, greenId := "", switched := false, drainStartedAt := None);
            Shape(Create(c, a.newId, ro.records[j].definition), ro.(records := ro.records[j := restored]), setup,
                j + 1, k, false, hole)
  {
    var rs := ro.records;
    var restored := rs[j].(originalId := a.newId, greenId := "", switched := false, drainStartedAt := None);
    var c' := Create(c, a.newId, rs[j].definition);
    ReplacedRecord(c, c', rs, j, restored);
    forall i | 0 <= i < |rs| && i != j
      ensures AtBlue(c, rs[i]) ==> AtBlue(c', rs[i])
      ensures AtGreen(c, rs[i], ro.candidate, setup) ==> AtGreen(c', rs[i], ro.candidate, setup)
      ensures Lost(c, rs[i]) ==> Lost(c', rs[i])
    {
      KeptRecords(c, c', rs, ro.candidate, setup, {}, i);
    }
  }

  // --- no second copies --------------------------------------------------------------------------

  lemma SoleAfterSwitch(c: Canvas, rs: seq<Record>, candidate: string, setup: Setup, now: int, a: Answers, k: nat)
    requires Sole(c, rs) && k < |rs| && !rs[k].switched && c.tracked <= c.used && a.newId !in c.used
    ensures var s := SwitchConnection(c, rs[k], candidate, setup, now, a);
            Sole(s.canvas, rs[k := s.record]) && s.canvas.tracked <= s.canvas.used
  {
    var s := SwitchConnection(c, rs[k], candidate, setup, now, a);
    var rs' := rs[k := s.record];
    forall id | id in s.canvas.tracked && id in s.canvas.links ensures id in LiveIds(rs') {
      if id == a.newId {
        assert LiveId(rs'[k]) == id;
      } else {
        assert id in LiveIds(rs);
        var i :| 0 <= i < |rs| && LiveId(rs[i]) == id;
        assert i != k || s.record.originalId == id;
        assert LiveId(rs'[i]) == id;
      }
    }
  }

  lemma SoleAfterRestore(c: Canvas, rs: seq<Record>, a: Answers, j: nat)
    requires Sole(c, rs) && j < |rs| && rs[j].switched && rs[j].greenId !in c.links && c.tracked <= c.used
             && a.newId !in c.used
    ensures var restored := rs[j].(originalId := a.newId, greenId := "", switched := false, drainStartedAt := None);
            Sole(Create(c, a.newId, rs[j].definition), rs[j := restored])
  {
    var rs' := rs[j := rs[j].(originalId := a.newId, greenId := "", switched := false, drainStartedAt := None)];
    var c' := Create(c, a.newId, rs[j].definition);
    forall id | id in c'.tracked && id in c'.links ensures id in LiveIds(rs') {
      if id == a.newId {
        assert LiveId(rs'[j]) == id;
      } else {
        var i :| 0 <= i < |rs| && LiveId(rs[i]) == id;
        assert LiveId(rs'[i]) == id;
      }
    }
  }

  lemma SoleAfterInventory(c: Canvas, rs: seq<Record>)
    requires Sole(c, []) && forall i :: 0 <= i < |rs| ==> !rs[i].switched
    ensures Sole(Track(c, rs), rs)
  {
    var c' := Track(c, rs);
    forall id | id in c'.tracked && id in c'.links ensures id in LiveIds(rs) {
      assert id !in LiveIds([]);
      var i :| 0 <= i < |rs| && rs[i].originalId == id;
      assert LiveId(rs[i]) == id;
    }
  }

  lemma SoleKept(c: Canvas, c': Canvas, rs: seq<Record>)
    requires Sole(c, rs) && c'.tracked == c.tracked <= c.used && forall id :: id in c.used && id !in c.links ==>
               id !in c'.links
    ensures Sole(c', rs)
  {
  }

  // --- the invariant -----------------------------------------------------------------------------

  ghost predicate Bookkept(c: Canvas) {
    c.links.Keys <= c.used && c.tracked <= c.used
  }

  /** The shape of the boundary with its two possible faults, a detached record (`gap`) and a lost
      one (`hole`, then record `k`), and no second copy of anything. */
  ghost predicate Inv(w: World, setup: Setup, k: nat, gap: bool, hole: bool) {
    && Bookkept(w.canvas)
    && (w.active.Some? ==> Sole(w.canvas, w.active.value.records)
                           && exists j: nat :: Fits(w.canvas, w.active.value, setup, j, k, gap, hole))
  }

  /** A switch attempt gets as far as deleting the recorded connection. All of it can be read before
      the attempt. */
  ghost predicate Deletes(c: Canvas, r: Record, setup: Setup, now: int, a: Answers) {
    && a.stopOk && a.countOk && r.originalId in c.links
    && (c.links[r.originalId].queued > 0 ==> DrainExpired(r, setup, now) && setup.dropOnTimeout && a.dropOk)
    && a.getOk && a.deleteOk
  }

  ghost predicate DrainExpired(r: Record, setup: Setup, now: int) {
    setup.drainTimeout <= 0 || (r.drainStartedAt.Some? && now - r.drainStartedAt.value > setup.drainTimeout)
  }

  /** The candidate has a port of the recorded name and direction. */
  ghost predicate HasGreenPort(r: Record, setup: Setup) {
    match r.direction
    case Inbound => r.portName in setup.greenInputs && setup.greenInputs[r.portName] != ""
    case Outbound => r.portName in setup.greenOutputs && setup.greenOutputs[r.portName] != ""
  }

  /** A switching reconcile deletes the connection of the first unswitched record. */
  ghost predicate SwitchDeletes(w: World, setup: Setup, a: Answers)
    requires w.active.Some?
  {
    var rs := w.active.value.records;
    var k := FirstWith(rs, false);
    && w.active.value.phase == SwitchingTraffic && w.active.value.inventoried && a.portsOk
    && k < |rs| && HasGreenPort(rs[k], setup) && Deletes(w.canvas, rs[k], setup, w.now, a)
  }

  /** The one fault that loses a connection: the create fails after its delete. */
  ghost predicate CreateFails(w: World, setup: Setup, cancel: bool, a: Answers) {
    w.retiring == "" && w.active.Some? && !cancel && SwitchDeletes(w, setup, a) && !a.createOk
  }

  /** What one reconcile does to the faults: a hole opens exactly at a failed create, at the first
      unswitched record, and stays where it is; with creates succeeding no fault appears. */
  ghost predicate FaultsMove(w: World, setup: Setup, cancel: bool, a: Answers, k: nat, gap: bool, hole: bool, k': nat,
      gap': bool, hole': bool) {
    && (hole' <==> hole || CreateFails(w, setup, cancel, a))
    && (hole ==> k' == k)
    && (!hole && hole' ==> w.active.Some? && k' == FirstWith(w.active.value.records, false))
    && (a.createOk && !gap ==> !gap')
  }

  lemma SwitchFault(c: Canvas, r: Record, candidate: string, setup: Setup, now: int, a: Answers)
    requires AtBlue(c, r) && a.newId !in c.links
    ensures var s := SwitchConnection(c, r, candidate, setup, now, a);
            && (r.originalId !in s.canvas.links <==> Deletes(c, r, setup, now, a))
            && (s.Failed? && s.record.originalId !in s.canvas.links <==> Deletes(c, r, setup, now, a) && !a.createOk)
  {
  }

  lemma AttemptKeeps(w: World, setup: Setup, a: Answers, k: nat) returns (k': nat, hole': bool)
    requires w.active.Some? && w.active.value.phase == SwitchingTraffic && w.active.value.inventoried
    requires Faithful(w, a) && Bookkept(w.canvas) && Sole(w.canvas, w.active.value.records)
    requires Shape(w.canvas, w.active.value, setup, 0, k, false, false) && k < |w.active.value.records|
    requires GreenPort(w.active.value.records[k], setup) != ""
    ensures Inv(Attempt(w, setup, a, k), setup, k', false, hole')
    ensures hole' <==> Deletes(w.canvas, w.active.value.records[k], setup, w.now, a) && !a.createOk
    ensures hole' ==> k' == k
  {
    var ro := w.active.value;
    AttemptShape(w, setup, a, k);
    SoleAfterSwitch(w.canvas, ro.records, ro.candidate, setup, w.now, a, k);
    SwitchFault(w.canvas, ro.records[k], ro.candidate, setup, w.now, a);
    var s := SwitchConnection(w.canvas, ro.records[k], ro.candidate, setup, w.now, a);
    k', hole' := if s.Switched? then k + 1 else k, s.Failed? && s.record.originalId !in s.canvas.links;
  }

  lemma InventoryKeeps(w: World, setup: Setup, a: Answers)
    requires w.active.Some? && w.active.value.phase == SwitchingTraffic && w.active.value.records == []
    requires Faithful(w, a) && Bookkept(w.canvas) && Sole(w.canvas, [])
    ensures Inv(TakeInventory(w, setup, a), setup, 0, false, false)
  {
    var w' := TakeInventory(w, setup, a);
    if a.listing.Some? && Inventory(w.canvas.links, a.listing.value, w.active.value.blue, setup).Some? {
      InventoryAtBlue(w.canvas, a.listing.value, w.active.value.blue, setup);
      TrackedShape(w.canvas, w.active.value,
          Inventory(w.canvas.links, a.listing.value, w.active.value.blue, setup).value, setup);
      assert Fits(w'.canvas, w'.active.value, setup, 0, 0, false, false);
    }
  }

  lemma SwitchTrafficKeeps(w: World, setup: Setup, a: Answers, k: nat) returns (k': nat, hole': bool)
    requires w.active.Some? && w.active.value.phase == SwitchingTraffic && w.retiring == ""
    requires Faithful(w, a) && Inv(w, setup, k, false, false)
    ensures Inv(SwitchTraffic(w, setup, a), setup, k', false, hole')
    ensures FaultsMove(w, setup, false, a, k, false, false, k', false, hole')
  {
    var ro := w.active.value;
    var j: nat :| Fits(w.canvas, ro, setup, j, k, false, false);
    var w' := SwitchTraffic(w, setup, a);
    ShapeSwitches(w.canvas, ro, setup, j, k, false, false);
    FirstIs(ro.records, false, k);
    if !ro.inventoried {
      assert w' == TakeInventory(w, setup, a);
      InventoryKeeps(w, setup, a);
      k', hole' := 0, false;
    } else if ro.records != [] && a.portsOk && k < |ro.records| && GreenPort(ro.records[k], setup) != "" {
      assert w' == Attempt(w, setup, a, k);
      k', hole' := AttemptKeeps(w, setup, a, k);
    } else {
      k', hole' := k, false;
      NoAttemptKeeps(w, setup, a, k);
    }
  }

  /** A switching reconcile without an attempt only turns the phase or gives up. */
  lemma NoAttemptKeeps(w: World, setup: Setup, a: Answers, k: nat)
    requires w.active.Some? && w.active.value.phase == SwitchingTraffic && w.active.value.inventoried
    requires Faithful(w, a) && Bookkept(w.canvas) && Sole(w.canvas, w.active.value.records)
    requires Shape(w.canvas, w.active.value, setup, 0, k, false, false) && FirstWith(w.active.value.records, false) == k
    requires w.active.value.records == [] || !a.portsOk || k == |w.active.value.records|
             || GreenPort(w.active.value.records[k], setup) == ""
    ensures Inv(SwitchTraffic(w, setup, a), setup, k, false, false)
  {
    var ro, w' := w.active.value, SwitchTraffic(w, setup, a);
    assert w'.canvas == w.canvas;
    assert w'.active.Some? ==> w'.active.value == ro.(phase := w'.active.value.phase);
    assert w'.active.Some? ==> Fits(w'.canvas, w'.active.value, setup, 0, k, false, false);
  }

  lemma TrackedShape(c: Canvas, ro: Rollout, rs: seq<Record>, setup: Setup)
    requires IdsApart(c, rs) && Sole(c, []) && Bookkept(c) && forall i :: 0 <= i < |rs| ==> AtBlue(c, rs[i])
    ensures Shape(Track(c, rs), ro.(records := rs, inventoried := true), setup, 0, 0, false, false)
    ensures Sole(Track(c, rs), rs) && Bookkept(Track(c, rs))
  {
    SoleAfterInventory(c, rs);
  }

  lemma RollbackTrafficKeeps(w: World, setup: Setup, a: Answers, k: nat, gap: bool, hole: bool) returns (gap': bool)
    requires w.active.Some? && w.active.value.phase == RollingBackTraffic && w.retiring == ""
    requires Faithful(w, a) && Inv(w, setup, k, gap, hole)
    ensures Inv(RollbackTraffic(w, a), setup, k, gap', hole)
    ensures FaultsMove(w, setup, false, a, k, gap, hole, k, gap', hole)
  {
    var ro := w.active.value;
    var w' := RollbackTraffic(w, a);
    var j: nat :| Fits(w.canvas, ro, setup, j, k, gap, hole);
    ShapeSwitches(w.canvas, ro, setup, j, k, gap, hole);
    if j < k {
      RollbackStepShape(w, setup, a, j, k, gap, hole);
      RollbackSole(w, a, setup, j, k, gap, hole);
      var j': nat, g :| Fits(w'.canvas, w'.active.value, setup, j', k, g, hole) && (a.createOk && !gap ==> !g);
      gap' := g;
    } else {
      FirstIs(ro.records, true, |ro.records|);
      gap' := gap;
    }
  }

  lemma RollbackSole(w: World, a: Answers, setup: Setup, j: nat, k: nat, gap: bool, hole: bool)
    requires w.active.Some? && Faithful(w, a) && w.active.value.phase == RollingBackTraffic
    requires Bookkept(w.canvas) && Sole(w.canvas, w.active.value.records)
    requires Shape(w.canvas, w.active.value, setup, j, k, gap, hole) && j < k
    ensures var w' := RollbackTraffic(w, a);
            w'.active.Some? && Sole(w'.canvas, w'.active.value.records) && Bookkept(w'.canvas)
  {
    var ro := w.active.value;
    var rs := ro.records;
    ShapeSwitches(w.canvas, ro, setup, j, k, gap, hole);
    FirstIs(rs, true, j);
    var (c, removed) := RemoveGreen(w.canvas, rs[j], a);
    RemovedGreen(w.canvas, rs[j], ro.candidate, setup, a);
    SoleKept(w.canvas, c, rs);
    if removed && a.createOk { SoleAfterRestore(c, rs, a, j); }
  }

  /** One reconcile, cancelled or not, keeps the invariant; a lost connection appears exactly with
      a failed create. */
  lemma ReconcileKeeps(w: World, setup: Setup, cancel: bool, a: Answers, k: nat, gap: bool, hole: bool)
    returns (k': nat, gap': bool, hole': bool)
    requires Faithful(w, a) && Inv(w, setup, k, gap, hole)
    ensures Inv(Reconcile(w, setup, cancel, a), setup, k', gap', hole')
    ensures FaultsMove(w, setup, cancel, a, k, gap, hole, k', gap', hole')
  {
    var w' := Reconcile(w, setup, cancel, a);
    k', gap', hole' := k, gap, hole;
    if w.retiring == "" && w.active.Some? {
      var ro := w.active.value;
      var j: nat :| Fits(w.canvas, ro, setup, j, k, gap, hole);
      if cancel {
        assert Fits(w'.canvas, w'.active.value, setup, j, k, gap, hole);
      } else if ro.phase == SwitchingTraffic {
        k', hole' := SwitchTrafficKeeps(w, setup, a, k);
      } else if ro.phase == RollingBackTraffic {
        gap' := RollbackTrafficKeeps(w, setup, a, k, gap, hole);
      } else {
        k' := OtherPhaseKeeps(w, setup, a, k, gap, hole);
      }
    }
  }

  lemma OtherPhaseKeeps(w: World, setup: Setup, a: Answers, k: nat, gap: bool, hole: bool) returns (k': nat)
    requires w.active.Some? && w.retiring == ""
             && w.active.value.phase in {DeployingCandidate, AwaitingReadiness, Promoting}
    requires Faithful(w, a) && Inv(w, setup, k, gap, hole)
    ensures !gap && !hole && Inv(Reconcile(w, setup, false, a), setup, k', false, false)
  {
    var ro := w.active.value;
    var w' := Reconcile(w, setup, false, a);
    var j: nat :| Fits(w.canvas, ro, setup, j, k, gap, hole);
    if ro.phase == Promoting {
      assert w' == Promote(w, a);
      PromoteKeeps(w, setup, a, k);
      k' := k;
    } else {
      assert w' == if ro.phase == DeployingCandidate then DeployCandidate(w, a) else AwaitReadiness(w, a);
      k' := 0;
      assert w'.active.Some? ==> Fits(w'.canvas, w'.active.value, setup, 0, 0, false, false);
    }
  }

  lemma PromoteKeeps(w: World, setup: Setup, a: Answers, k: nat)
    requires w.active.Some? && w.active.value.phase == Promoting && Bookkept(w.canvas)
             && Sole(w.canvas, w.active.value.records)
    requires Fits(w.canvas, w.active.value, setup, 0, k, false, false)
    ensures Inv(Promote(w, a), setup, k, false, false)
  {
    var w' := Promote(w, a);
    if w'.active.Some? {
      KeptShape(w.canvas, w'.canvas, w.active.value, setup, 0, k, false, false);
      SoleKept(w.canvas, w'.canvas, w.active.value.records);
      assert Fits(w'.canvas, w'.active.value, setup, 0, k, false, false);
    }
  }

  lemma KeptShape(c: Canvas, c': Canvas, ro: Rollout, setup: Setup, j: nat, k: nat, gap: bool, hole: bool)
    requires Shape(c, ro, setup, j, k, gap, hole)
    requires Keeps(c, c', c.used - LiveIds(ro.records))
    ensures Shape(c', ro, setup, j, k, gap, hole)
  {
    forall i | 0 <= i < |ro.records|
      ensures AtBlue(c, ro.records[i]) ==> AtBlue(c', ro.records[i])
      ensures AtGreen(c, ro.records[i], ro.candidate, setup) ==> AtGreen(c', ro.records[i], ro.candidate, setup)
      ensures Detached(c, ro.records[i]) ==> Detached(c', ro.records[i])
      ensures Lost(c, ro.records[i]) ==> Lost(c', ro.records[i])
    {
      assert LiveId(ro.records[i]) in LiveIds(ro.records);
      KeptRecords(c, c', ro.records, ro.candidate, setup, c.used - LiveIds(ro.records), i);
    }
  }
}
