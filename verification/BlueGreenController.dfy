/** The BlueGreen handlers as the controller runs them: loops over the persisted records that
    update them in place, against a canvas that each call changes. Every handler is proved to
    take exactly the protocol step. */
module BlueGreenController {
  import opened Text
  import opened BlueGreen
  import opened BlueGreenLaws

  class CanvasApi {
    var state: Canvas

    method SetRunStatus(id: string, run: bool)
      modifies this
      ensures state == old(state).(running := if run then old(state).running + {id} else old(state).running - {id})
    {
      state := state.(running := if run then state.running + {id} else state.running - {id});
    }

    method DropConnectionQueue(id: string)
      modifies this
      ensures state == Drop(old(state), id)
    {
      state := Drop(state, id);
    }

    method DeleteConnection(id: string)
      modifies this
      ensures state == Delete(old(state), id)
    {
      state := Delete(state, id);
    }

    /** Bookkeeping for the history variable only; NiFi is not called. */
    method Observe(records: seq<Record>)
      modifies this
      ensures state == Track(old(state), records)
    {
      state := Track(state, records);
    }

    method CreateConnection(id: string, component: Component)
      modifies this
      ensures state == Create(old(state), id, component)
    {
      state := Create(state, id, component);
    }
  }

  /** Port listings keyed the two ways the controller needs them; entries without an id or a name
      are skipped, and a later entry wins. */
  datatype Port = Port(id: string, name: string)

  function NameToId(ports: seq<Port>): (r: map<string, string>) {
    if ports == [] then map[]
    else
      var p, before := ports[|ports| - 1], NameToId(ports[..|ports| - 1]);
      if p.id != "" && p.name != "" then before[p.name := p.id] else before
  }

  method PortNameToId(ports: seq<Port>) returns (r: map<string, string>)
    ensures r == NameToId(ports)
    ensures forall name :: name in r ==> name != "" && r[name] != "" && Port(r[name], name) in ports
    ensures forall p :: p in ports && p.id != "" && p.name != "" ==> p.name in r
  {
    r := map[];
    for i := 0 to |ports|
      invariant r == NameToId(ports[..i])
      invariant forall name :: name in r ==> name != "" && r[name] != "" && Port(r[name], name) in ports
      invariant forall k :: 0 <= k < i && ports[k].id != "" && ports[k].name != "" ==> ports[k].name in r
    {
      assert ports[..i + 1][..i] == ports[..i];
      if ports[i].name != "" && ports[i].id != "" { r := r[ports[i].name := ports[i].id]; }
    }
    assert ports[..|ports|] == ports;
  }

  class Controller {
    const api: CanvasApi
    var ongoing: bool
    var phase: Phase
    var candidate: string
    var blue: string
    var inventoried: bool
    var records: seq<Record>
    var processGroup: string
    var retiring: string
    var promoted: bool
    var rolledBack: bool
    var deleted: set<string>

    constructor (api: CanvasApi, w: World)
      ensures this.api == api
      ensures w.active.Some? && w.canvas == api.state ==> State(w.now) == w
    {
      this.api := api;
      ongoing := w.active.Some?;
      if w.active.Some? {
        phase, candidate, blue := w.active.value.phase, w.active.value.candidate, w.active.value.blue;
        inventoried, records := w.active.value.inventoried, w.active.value.records;
      } else {
        phase, candidate, blue, inventoried, records := DeployingCandidate, "", "", false, [];
      }
      processGroup, retiring, promoted, rolledBack, deleted := w.processGroup, w.retiring, w.promoted, w.rolledBack,
          w.deleted;
    }

    function Active(): (r: Rollout)
      reads this
    {
      Rollout(phase, candidate, blue, inventoried, records)
    }

    function State(now: int): (w: World)
      reads this, api
    {
      World(api.state, if ongoing then Some(Active()) else None,
            processGroup, retiring, promoted, rolledBack, deleted, now)
    }

    method InventoryBoundary(listing: seq<string>, setup: Setup) returns (r: Option<seq<Record>>)
      requires forall i :: 0 <= i < |listing| ==> listing[i] in api.state.links
      ensures r == Inventory(api.state.links, listing, blue, setup)
    {
      var found: seq<Record> := [];
      for i := 0 to |listing|
        invariant Inventory(api.state.links, listing[..i], blue, setup) == Some(found)
      {
        assert listing[..i + 1][..i] == listing[..i];
        var component := api.state.links[listing[i]].component;
        var boundary := Classify(component, blue, setup);
        if boundary.Unsupported? {
          UnsupportedRefuses(api.state.links, listing, i, blue, setup);
          return None;
        }
        if boundary.Crossing? { found := found + [Recorded(listing[i], component, boundary)]; }
      }
      assert listing[..|listing|] == listing;
      r := Some(found);
    }

    /** blueGreenSwitchConnection on one record: `done` is false while draining, `failed` asks for
        a rollback. */
    method SwitchRecord(i: nat, setup: Setup, now: int, a: Answers) returns (failed: bool)
      requires i < |records|
      modifies this`records, api
      ensures var s := SwitchConnection(old(api.state), old(records[i]), candidate, setup, now, a);
              api.state == s.canvas && records == old(records)[i := s.record] && failed == s.Failed?
      ensures !old(records)[i].switched ==> SwitchedTo(api.state, records[i], candidate, setup, a.newId)
    {
      SwitchRepoints(api.state, records[i], candidate, setup, now, a);
      var component := records[i].definition;
      assert records == records[i := records[i]];
      if !a.stopOk { return true; }
      api.SetRunStatus(component.source.id, false);
      if records[i].drainStartedAt.None? { records := records[i := records[i].(drainStartedAt := Some(now))]; }
      var originalId := records[i].originalId;
      if !a.countOk || originalId !in api.state.links { return true; }
      var queued := api.state.links[originalId].queued;
      if queued > 0 {
        var expired := setup.drainTimeout <= 0 || now - records[i].drainStartedAt.value > setup.drainTimeout;
        if !expired { return false; }
        if !setup.dropOnTimeout || !a.dropOk { return true; }
        api.DropConnectionQueue(originalId);
      }
      if !a.getOk || !a.deleteOk { return true; }
      api.DeleteConnection(originalId);
      if !a.createOk { return true; }
      api.CreateConnection(a.newId, GreenComponent(records[i], candidate, setup));
      records := records[i := records[i].(greenId := a.newId, switched := true)];
      return false;
    }

    method RecordBoundary(setup: Setup, now: int, a: Answers)
      requires ongoing
      requires a.listing.Some? ==> IsListing(a.listing.value, api.state.links)
      modifies this, api
      ensures State(now) == TakeInventory(old(State(now)), setup, a)
    {
      var found := None;
      if a.listing.Some? { found := InventoryBoundary(a.listing.value, setup); }
      if found.None? {
        deleted, ongoing := deleted + {candidate}, false;
      } else {
        records, inventoried := found.value, true;
        api.Observe(records);
      }
    }

    method AttemptSwitch(i: nat, setup: Setup, now: int, a: Answers)
      requires ongoing && i < |records|
      modifies this, api
      ensures State(now) == Attempt(old(State(now)), setup, a, i)
    {
      var failed := SwitchRecord(i, setup, now, a);
      if failed { phase := RollingBackTraffic; }
    }

    method SwitchBoundary(setup: Setup, now: int, a: Answers)
      requires ongoing
      requires a.listing.Some? ==> IsListing(a.listing.value, api.state.links)
      modifies this, api
      ensures State(now) == SwitchTraffic(old(State(now)), setup, a)
    {
      if !inventoried { RecordBoundary(setup, now, a); return; }
      if records == [] { phase := Promoting; return; }
      if !a.portsOk { deleted, ongoing := deleted + {candidate}, false; return; }
      for i := 0 to |records|
        invariant unchanged(this) && unchanged(api)
        invariant forall k :: 0 <= k < i ==> records[k].switched
      {
        if records[i].switched { continue; }
        FirstIs(records, false, i);
        if GreenPort(records[i], setup) == "" { phase := RollingBackTraffic; return; }
        AttemptSwitch(i, setup, now, a);
        return;
      }
      FirstIs(records, false, |records|);
      phase := Promoting;
    }

    method RestartSources(inboundOnly: bool)
      modifies api
      ensures api.state == old(api.state).(running := old(api.state).running + Sources(records, inboundOnly))
    {
      ghost var before := api.state;
      for i := 0 to |records|
        invariant api.state == before.(running := before.running + Sources(records[..i], inboundOnly))
      {
        SourcesGrow(records, i, inboundOnly);
        if !inboundOnly || records[i].direction == Inbound {
          api.SetRunStatus(records[i].definition.source.id, true);
        }
      }
      assert records[..|records|] == records;
    }

    method PromoteCandidate(now: int, a: Answers)
      requires ongoing
      modifies this, api
      ensures State(now) == Promote(old(State(now)), a)
    {
      if !a.getOk || !a.startOk { return; }
      if !a.renameOk { processGroup := candidate; return; }
      RestartSources(true);
      if !a.historyOk { return; }
      processGroup, retiring := candidate, blue;
      ongoing, promoted := false, true;
    }

    method RollBackBoundary(now: int, a: Answers)
      requires ongoing
      modifies this, api
      ensures State(now) == RollbackTraffic(old(State(now)), a)
    {
      for i := 0 to |records|
        invariant unchanged(this) && unchanged(api)
        invariant forall k :: 0 <= k < i ==> !records[k].switched
      {
        if !records[i].switched { continue; }
        FirstIs(records, true, i);
        var greenId := records[i].greenId;
        if greenId != "" && a.getOk && greenId in api.state.links {
          if a.countOk && api.state.links[greenId].queued > 0 && a.dropOk { api.DropConnectionQueue(greenId); }
          if !a.deleteOk { return; }
          api.DeleteConnection(greenId);
        }
        if !a.createOk { return; }
        api.CreateConnection(a.newId, records[i].definition);
        records :=
            records[i := records[i].(originalId := a.newId, greenId := "", switched := false, drainStartedAt := None)];
        return;
      }
      FirstIs(records, true, |records|);
      RestartSources(false);
      deleted, ongoing, rolledBack := deleted + {candidate}, false, true;
    }

    /** One reconcile takes exactly the protocol step. */
    method ReconcileRollout(setup: Setup, cancel: bool, now: int, a: Answers)
      requires a.listing.Some? ==> IsListing(a.listing.value, api.state.links)
      modifies this, api
      ensures State(now) == Reconcile(old(State(now)), setup, cancel, a)
    {
      if retiring != "" {
        deleted, retiring := deleted + {retiring}, "";
      } else if !ongoing {
      } else if cancel {
        phase := RollingBackTraffic;
      } else {
        match phase
        case DeployingCandidate =>
          if candidate == "" {
            if !a.importOk { return; }
            candidate := a.newGroup;
          }
          phase := AwaitingReadiness;
        case AwaitingReadiness =>
          if a.readiness == Ready {
            phase := SwitchingTraffic;
          } else if a.readiness == Expired {
            deleted, ongoing := deleted + {candidate}, false;
          }
        case SwitchingTraffic => SwitchBoundary(setup, now, a);
        case Promoting => PromoteCandidate(now, a);
        case RollingBackTraffic => RollBackBoundary(now, a);
      }
    }
  }

  lemma SourcesGrow(rs: seq<Record>, i: nat, inboundOnly: bool)
    requires i < |rs|
    ensures Sources(rs[..i + 1], inboundOnly)
         == Sources(rs[..i], inboundOnly)
            + if !inboundOnly || rs[i].direction == Inbound then {rs[i].definition.source.id} else {}
  {
    var more, less := Sources(rs[..i + 1], inboundOnly), Sources(rs[..i], inboundOnly);
    forall id | id in less ensures id in more {
      var k :| 0 <= k < i && (!inboundOnly || rs[..i][k].direction == Inbound) && rs[..i][k].definition.source.id == id;
      assert rs[..i + 1][k] == rs[..i][k];
    }
    forall id | id in more ensures id in less
    || ((!inboundOnly || rs[i].direction == Inbound) && id == rs[i].definition.source.id) {
      var k :| 0 <= k < i + 1 && (!inboundOnly || rs[..i + 1][k].direction == Inbound)
               && rs[..i + 1][k].definition.source.id == id;
      if k < i { assert rs[..i][k] == rs[..i + 1][k]; }
    }
    if !inboundOnly || rs[i].direction == Inbound { assert rs[..i + 1][i] == rs[i]; }
  }

  lemma UnsupportedRefuses(links: map<string, Link>, listing: seq<string>, i: nat, blue: string, setup: Setup)
    requires i < |listing| && forall k :: 0 <= k < |listing| ==> listing[k] in links
    requires Classify(links[listing[i]].component, blue, setup).Unsupported?
    ensures Inventory(links, listing, blue, setup).None?
  {
    var at := InventoryExact(links, listing, blue, setup);
  }
}
