/** The transactional BlueGreen rollout (internal/controller/flow_deployment_bluegreen.go): each
    reconcile takes at most one durable step against the NiFi canvas and the persisted rollout. */
module BlueGreen {
  import opened Text

  // --- the canvas ------------------------------------------------------------------------------

  datatype Kind = Processor | InputPort | OutputPort | Funnel | OtherKind(text: string)

  datatype Connectable = Connectable(id: string, kind: Kind, group: string)

  datatype Component = Component(source: Connectable, destination: Connectable, settings: string)

  datatype Link = Link(component: Component, queued: nat)

  /** The connections of the parent group by id, every id ever handed out, the running
      components, and two history variables: the number of queued files the operator has discarded
      and the ids of the connections it has recorded or created since. */
  datatype Canvas = Canvas(
    links: map<string, Link>, used: set<string>, running: set<string>, discarded: nat, tracked: set<string>)

  // --- the persisted rollout -------------------------------------------------------------------

  datatype Direction = Inbound | Outbound

  datatype Record = Record(
    direction: Direction, portName: string, originalId: string, definition: Component,
    switched: bool, greenId: string, drainStartedAt: Option<int>)

  datatype Phase = DeployingCandidate | AwaitingReadiness | SwitchingTraffic | Promoting | RollingBackTraffic

  datatype Rollout = Rollout(phase: Phase, candidate: string, blue: string, inventoried: bool, records: seq<Record>)

  /** Port names by id on blue, port ids by name on the candidate, and the drain policy. */
  datatype Setup = Setup(
    blueInputs: map<string, string>, blueOutputs: map<string, string>,
    greenInputs: map<string, string>, greenOutputs: map<string, string>,
    drainTimeout: int, dropOnTimeout: bool)

  /** `active` is None before a rollout starts and after it has ended. `deleted` are the process
      groups the operator asked NiFi to delete. */
  datatype World = World(
    canvas: Canvas, active: Option<Rollout>, processGroup: string, retiring: string,
    promoted: bool, rolledBack: bool, deleted: set<string>, now: int)

  datatype Readiness = Ready | NotReady | Expired | CheckFailed

  /** What the outside calls of one reconcile answer; `newId` is the id NiFi gives a created
      connection and `newGroup` the id of an imported candidate. */
  datatype Answers = Answers(
    importOk: bool, newGroup: string, readiness: Readiness, listing: Option<seq<string>>, portsOk: bool,
    stopOk: bool, countOk: bool, dropOk: bool, getOk: bool, deleteOk: bool, createOk: bool, newId: string,
    startOk: bool, renameOk: bool, historyOk: bool)

  // --- inventory -------------------------------------------------------------------------------

  predicate Switchable(kind: Kind) {
    kind.Processor? || kind.InputPort? || kind.OutputPort?
  }

  function NameOf(names: map<string, string>, id: string): (r: string) {
    if id in names then names[id] else ""
  }

  datatype Boundary = Unrelated | Unsupported | Crossing(direction: Direction, portName: string)

  /** How a connection crosses the edge of the blue group; the inbound test comes first. */
  function Classify(c: Component, blue: string, setup: Setup): (r: Boundary) {
    if c.destination.group == blue && c.destination.kind == InputPort then
      var name := NameOf(setup.blueInputs, c.destination.id);
      if name == "" then Unrelated
      else if !Switchable(c.source.kind) then Unsupported
      else Crossing(Inbound, name)
    else if c.source.group == blue && c.source.kind == OutputPort then
      var name := NameOf(setup.blueOutputs, c.source.id);
      if name == "" then Unrelated else Crossing(Outbound, name)
    else Unrelated
  }

  function Recorded(id: string, c: Component, b: Boundary): (r: Record)
    requires b.Crossing?
  {
    Record(b.direction, b.portName, id, c, false, "", None)
  }

  /** The boundary records of a listing, or None when a source cannot be stopped safely. */
  function Inventory(links: map<string, Link>, listing: seq<string>, blue: string,
      setup: Setup): (r: Option<seq<Record>>)
    requires forall i :: 0 <= i < |listing| ==> listing[i] in links
  {
    if listing == [] then Some([])
    else
      var id, c := listing[|listing| - 1], links[listing[|listing| - 1]].component;
      var b := Classify(c, blue, setup);
      var before := Inventory(links, listing[..|listing| - 1], blue, setup);
      if before.None? || b.Unsupported? then None
      else if b.Crossing? then Some(before.value + [Recorded(id, c, b)])
      else before
  }

  ghost predicate IsListing(listing: seq<string>, links: map<string, Link>) {
    && (forall i, j :: 0 <= i < j < |listing| ==> listing[i] != listing[j])
    && (forall id :: id in listing <==> id in links)
  }

  // --- the steps -------------------------------------------------------------------------------

  /** The id of the candidate's port of that name and direction; "" when it has none. */
  function GreenPort(r: Record, setup: Setup): (id: string) {
    NameOf(if r.direction == Outbound then setup.greenOutputs else setup.greenInputs, r.portName)
  }

  /** The recorded connection with its deployment end moved to the candidate's port. */
  function GreenComponent(r: Record, candidate: string, setup: Setup): (c: Component) {
    if r.direction == Inbound
    then r.definition.(destination := Connectable(GreenPort(r, setup), InputPort, candidate))
    else r.definition.(source := Connectable(GreenPort(r, setup), OutputPort, candidate))
  }

  /** The least index whose switched flag is `flag`, or the number of records. */
  function FirstWith(rs: seq<Record>, flag: bool): (i: nat)
    ensures i <= |rs|
    ensures i < |rs| ==> rs[i].switched == flag
    ensures forall j :: 0 <= j < i ==> rs[j].switched != flag
  {
    if rs == [] then 0
    else if rs[0].switched == flag then 0
    else 1 + FirstWith(rs[1..], flag)
  }

  function WithRollout(w: World, r: Rollout): (w': World) {
    w.(active := Some(r))
  }

  function Drop(c: Canvas, id: string): (r: Canvas) {
    if id in c.links
       then c.(links := c.links[id := c.links[id].(queued := 0)], discarded := c.discarded + c.links[id].queued) else c
  }

  /** Deleting a connection discards whatever is still queued in it. */
  function Delete(c: Canvas, id: string): (r: Canvas) {
    if id in c.links then c.(links := c.links - {id}, discarded := c.discarded + c.links[id].queued) else c
  }

  function Create(c: Canvas, id: string, component: Component): (r: Canvas) {
    c.(links := c.links[id := Link(component, 0)], used := c.used + {id}, tracked := c.tracked + {id})
  }

  /** The connections the records name are tracked from now on. */
  function Track(c: Canvas, rs: seq<Record>): (r: Canvas) {
    c.(tracked := c.tracked + set i | 0 <= i < |rs| :: rs[i].originalId)
  }

  datatype SwitchResult = Failed(canvas: Canvas, record: Record) | Draining(canvas: Canvas,
      record: Record) | Switched(canvas: Canvas, record: Record)

  function SwitchConnection(c: Canvas, r: Record, candidate: string, setup: Setup, now: int,
      a: Answers): (s: SwitchResult) {
    if !a.stopOk then Failed(c, r)
    else
      var c1 := c.(running := c.running - {r.definition.source.id});
      var r1 := if r.drainStartedAt.None? then r.(drainStartedAt := Some(now)) else r;
      if !a.countOk || r.originalId !in c1.links then Failed(c1, r1)
      else
        var queued := c1.links[r.originalId].queued;
        var expired := setup.drainTimeout <= 0 || now - r1.drainStartedAt.value > setup.drainTimeout;
        if queued > 0 && !expired then Draining(c1, r1)
        else if queued > 0 && (!setup.dropOnTimeout || !a.dropOk) then Failed(c1, r1)
        else
          var c2 := if queued > 0 then Drop(c1, r.originalId) else c1;
          if !a.getOk || !a.deleteOk then Failed(c2, r1)
          else
            var c3 := Delete(c2, r.originalId);
            if !a.createOk then Failed(c3, r1)
            else Switched(Create(c3, a.newId, GreenComponent(r, candidate, setup)),
                r1.(greenId := a.newId, switched := true))
  }

  function Abort(w: World): (w': World)
    requires w.active.Some?
  {
    w.(active := None, deleted := w.deleted + {w.active.value.candidate})
  }

  /** The first switching reconcile: the records are taken, or the rollout is given up. */
  function TakeInventory(w: World, setup: Setup, a: Answers): (w': World)
    requires w.active.Some?
    requires a.listing.Some? ==> IsListing(a.listing.value, w.canvas.links)
  {
    if a.listing.None? then Abort(w)
    else
      var ro, records := w.active.value, Inventory(w.canvas.links, a.listing.value, w.active.value.blue, setup);
      if records.None? then Abort(w)
      else WithRollout(w.(canvas := Track(w.canvas, records.value)), ro.(records := records.value, inventoried := true))
  }

  /** One attempt on record `i`; a failure turns the rollout around. */
  function Attempt(w: World, setup: Setup, a: Answers, i: nat): (w': World)
    requires w.active.Some? && i < |w.active.value.records|
  {
    var ro := w.active.value;
    var s := SwitchConnection(w.canvas, ro.records[i], ro.candidate, setup, w.now, a);
    var next := ro.(records := ro.records[i := s.record]);
    WithRollout(w.(canvas := s.canvas), if s.Failed? then next.(phase := RollingBackTraffic) else next)
  }

  function SwitchTraffic(w: World, setup: Setup, a: Answers): (w': World)
    requires w.active.Some?
    requires a.listing.Some? ==> IsListing(a.listing.value, w.canvas.links)
  {
    var ro := w.active.value;
    if !ro.inventoried then TakeInventory(w, setup, a)
    else if ro.records == [] then WithRollout(w, ro.(phase := Promoting))
    else if !a.portsOk then Abort(w)
    else
      var i := FirstWith(ro.records, false);
      if i == |ro.records| then WithRollout(w, ro.(phase := Promoting))
      else if GreenPort(ro.records[i], setup) == "" then WithRollout(w, ro.(phase := RollingBackTraffic))
      else Attempt(w, setup, a, i)
  }

  function Sources(rs: seq<Record>, inboundOnly: bool): (r: set<string>) {
    set i | 0 <= i < |rs| && (!inboundOnly || rs[i].direction == Inbound) :: rs[i].definition.source.id
  }

  function Promote(w: World, a: Answers): (w': World)
    requires w.active.Some?
  {
    var ro := w.active.value;
    if !a.getOk || !a.startOk then w
    else if !a.renameOk then w.(processGroup := ro.candidate)
    else
      var c := w.canvas.(running := w.canvas.running + Sources(ro.records, true));
      if !a.historyOk then w.(canvas := c)
      else w.(canvas := c, processGroup := ro.candidate, retiring := ro.blue, active := None, promoted := true)
  }

  /** Deleting the green connection of a record on the way back; None when NiFi refuses. */
  function RemoveGreen(c: Canvas, r: Record, a: Answers): (s: (Canvas, bool)) {
    if r.greenId == "" || !a.getOk || r.greenId !in c.links then (c, true)
    else
      var c1 := if a.countOk && c.links[r.greenId].queued > 0 && a.dropOk then Drop(c, r.greenId) else c;
      if a.deleteOk then (Delete(c1, r.greenId), true) else (c1, false)
  }

  function RollbackTraffic(w: World, a: Answers): (w': World)
    requires w.active.Some?
  {
    var ro := w.active.value;
    var i := FirstWith(ro.records, true);
    if i < |ro.records| then
      var r := ro.records[i];
      var (c, removed) := RemoveGreen(w.canvas, r, a);
      if !removed || !a.createOk then w.(canvas := c)
      else
        var restored := r.(originalId := a.newId, greenId := "", switched := false, drainStartedAt := None);
        WithRollout(w.(canvas := Create(c, a.newId, r.definition)), ro.(records := ro.records[i := restored]))
    else
      w.(canvas := w.canvas.(running := w.canvas.running + Sources(ro.records, false)),
         active := None, rolledBack := true, deleted := w.deleted + {ro.candidate})
  }

  function DeployCandidate(w: World, a: Answers): (w': World)
    requires w.active.Some?
  {
    var ro := w.active.value;
    if ro.candidate != "" then WithRollout(w, ro.(phase := AwaitingReadiness))
    else if !a.importOk then w
    else WithRollout(w, ro.(candidate := a.newGroup, phase := AwaitingReadiness))
  }

  function AwaitReadiness(w: World, a: Answers): (w': World)
    requires w.active.Some?
  {
    match a.readiness
    case Ready => WithRollout(w, w.active.value.(phase := SwitchingTraffic))
    case Expired => Abort(w)
    case _ => w
  }

  /** One reconcile of a deployment with a BlueGreen rollout. */
  function Reconcile(w: World, setup: Setup, cancel: bool, a: Answers): (w': World)
    requires a.listing.Some? ==> IsListing(a.listing.value, w.canvas.links)
  {
    if w.retiring != "" then w.(deleted := w.deleted + {w.retiring}, retiring := "")
    else if w.active.None? then w
    else if cancel then WithRollout(w, w.active.value.(phase := RollingBackTraffic))
    else match w.active.value.phase
      case DeployingCandidate => DeployCandidate(w, a)
      case AwaitingReadiness => AwaitReadiness(w, a)
      case SwitchingTraffic => SwitchTraffic(w, setup, a)
      case Promoting => Promote(w, a)
      case RollingBackTraffic => RollbackTraffic(w, a)
  }
}
