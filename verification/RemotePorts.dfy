/** Remote port reconciliation (nifiremoteprocessgroup_controller.go): the configuration and the
    transmission state of the ports a remote process group discovered, under NiFi's optimistic
    revisions. */
module RemotePorts {
  import opened Text

  datatype Batch = Batch(count: int, size: string, duration: string)

  datatype Port = Port(id: string, name: string, compression: bool, tasks: int, batch: Batch, transmitting: bool,
      connected: bool)

  datatype Config = Config(name: string, transmitting: bool, tasks: int, compression: bool, batchCount: int,
      batchSize: string, batchDuration: string)

  /** remotePortConfigDiffers. */
  predicate Differs(cfg: Config, p: Port) {
    || cfg.compression != p.compression
    || (cfg.tasks != 0 && cfg.tasks != p.tasks)
    || (cfg.batchCount != 0 && cfg.batchCount != p.batch.count)
    || (cfg.batchSize != "" && cfg.batchSize != p.batch.size)
    || (cfg.batchDuration != "" && cfg.batchDuration != p.batch.duration)
  }

  // --- what an update request carries ------------------------------------------------------------

  /** The body of an update. Zero values are omitted from the JSON, so a field that is absent here
      never reaches NiFi: in particular `useCompression: false` cannot be expressed. */
  datatype Update = Update(compression: Option<bool>, tasks: Option<int>, batch: Option<Batch>)

  /** desiredRemotePort, as it is encoded. */
  function Desired(cfg: Config): (u: Update) {
    Update(if cfg.compression then Some(true) else None,
           if cfg.tasks != 0 then Some(cfg.tasks) else None,
           if cfg.batchCount != 0 || cfg.batchSize != "" || cfg.batchDuration != ""
           then Some(Batch(cfg.batchCount, cfg.batchSize, cfg.batchDuration)) else None)
  }

  /** NiFi sets the fields it receives and keeps the others; `reset` is what it makes of the
      settings missing from a batch it does receive. */
  function Updated(p: Port, u: Update, reset: Batch): (r: Port) {
    p.(compression := if u.compression.Some? then u.compression.value else p.compression,
       tasks := if u.tasks.Some? then u.tasks.value else p.tasks,
       batch := if u.batch.None? then p.batch
                else Batch(if u.batch.value.count != 0 then u.batch.value.count else reset.count,
                           if u.batch.value.size != "" then u.batch.value.size else reset.size,
                           if u.batch.value.duration != "" then u.batch.value.duration else reset.duration))
  }

  /** The port has every field the configuration sets, compression aside. */
  ghost predicate HasSetFields(p: Port, cfg: Config) {
    && (cfg.tasks != 0 ==> p.tasks == cfg.tasks)
    && (cfg.batchCount != 0 ==> p.batch.count == cfg.batchCount)
    && (cfg.batchSize != "" ==> p.batch.size == cfg.batchSize)
    && (cfg.batchDuration != "" ==> p.batch.duration == cfg.batchDuration)
  }

  ghost predicate AsConfigured(p: Port, cfg: Config) {
    p.compression == cfg.compression && HasSetFields(p, cfg)
  }

  /** The fields the configuration leaves alone are as they were. */
  ghost predicate KeepsOthers(p: Port, r: Port, cfg: Config) {
    && r.id == p.id && r.name == p.name && r.connected == p.connected
    && (cfg.tasks == 0 ==> r.tasks == p.tasks)
    && (cfg.batchCount == 0 && cfg.batchSize == "" && cfg.batchDuration == "" ==> r.batch == p.batch)
  }

  /** An update is sent exactly for a port that is not as configured. */
  lemma DiffersIff(p: Port, cfg: Config)
    ensures Differs(cfg, p) <==> !AsConfigured(p, cfg)
  {
  }

  /** An update leaves the port with every field the configuration sets, the others as they were, and
      compression on if it was on before or is asked for. So it makes the port as configured if and
      only if compression need not be turned off. */
  lemma UpdateSettlesIff(p: Port, cfg: Config, reset: Batch)
    ensures var r := Updated(p, Desired(cfg), reset);
            && HasSetFields(r, cfg) && KeepsOthers(p, r, cfg) && r.transmitting == p.transmitting
            && r.compression == (p.compression || cfg.compression)
            && (AsConfigured(r, cfg) <==> (p.compression ==> cfg.compression))
  {
  }

  // --- one port ----------------------------------------------------------------------------------

  /** The port once its configuration has been dealt with: stopped if it had to be edited. */
  function Configured(p: Port, cfg: Config, reset: Batch): (r: Port) {
    if Differs(cfg, p) then Updated(p.(transmitting := false), Desired(cfg), reset) else p
  }

  predicate Unconnected(p: Port, cfg: Config, reset: Batch) {
    cfg.transmitting && !Configured(p, cfg, reset).transmitting && !p.connected
  }

  /** The port after a pass without errors. */
  function Settled(p: Port, cfg: Config, reset: Batch): (r: Port) {
    Configured(p, cfg, reset).(transmitting := cfg.transmitting && !Unconnected(p, cfg, reset))
  }

  /** How many mutating calls the pass makes for the port. */
  function Calls(p: Port, cfg: Config, reset: Batch): (n: nat) {
    (if Differs(cfg, p) then (if p.transmitting then 2 else 1) else 0)
    + if Settled(p, cfg, reset).transmitting != Configured(p, cfg, reset).transmitting then 1 else 0
  }

  /** The port has to be waited for: it should transmit, has no connection, and is not already
      transmitting as configured. */
  lemma UnconnectedIff(p: Port, cfg: Config, reset: Batch)
    ensures Unconnected(p, cfg, reset)
            <==> cfg.transmitting && !p.connected && !(p.transmitting && AsConfigured(p, cfg))
  {
    DiffersIff(p, cfg);
  }

  /** A pass makes no call for a port exactly if it is as configured and transmits as it should or
      cannot yet. */
  lemma NoCallIff(p: Port, cfg: Config, reset: Batch)
    ensures Calls(p, cfg, reset) == 0
            <==> AsConfigured(p, cfg) && (p.transmitting == cfg.transmitting || (cfg.transmitting && !p.connected))
    ensures Calls(p, cfg, reset) == 0 ==> Settled(p, cfg, reset) == p
  {
    DiffersIff(p, cfg);
  }

  /** After one pass a port has every field its configuration sets, the others as they were, and its
      transmission state unless it is waited on; it is as configured, and the next pass makes no call,
      exactly if compression need not be turned off. */
  lemma PassSettlesIff(p: Port, cfg: Config, reset: Batch)
    ensures var r := Settled(p, cfg, reset);
            && HasSetFields(r, cfg) && KeepsOthers(p, r, cfg) && r.compression == (p.compression || cfg.compression)
            && r.transmitting == (cfg.transmitting && !Unconnected(p, cfg, reset))
            && (AsConfigured(r, cfg) <==> (p.compression ==> cfg.compression))
            && (Calls(r, cfg, reset) == 0 <==> (p.compression ==> cfg.compression))
  {
    DiffersIff(p, cfg);
    UpdateSettlesIff(p.(transmitting := false), cfg, reset);
    NoCallIff(Settled(p, cfg, reset), cfg, reset);
  }

  function Passes(p: Port, cfg: Config, reset: Batch, n: nat): (r: Port) {
    if n == 0 then p else Settled(Passes(p, cfg, reset, n - 1), cfg, reset)
  }

  /** A port asked to transmit uncompressed while NiFi has compression on is stopped, updated to no
      effect and started again on every pass. */
  lemma {:induction false} CompressionOffNeverSettles(p: Port, cfg: Config, reset: Batch, n: nat)
    requires p.compression && !cfg.compression && cfg.transmitting && p.connected && p.transmitting
    ensures var q := Passes(p, cfg, reset, n);
            q.compression && q.transmitting && q.connected && Calls(q, cfg, reset) == 3
  {
    if n > 0 {
      CompressionOffNeverSettles(p, cfg, reset, n - 1);
    }
  }

  // --- the ports of one direction ------------------------------------------------------------------

  datatype Wait = NotDiscovered(output: bool, name: string) | NotConnected(output: bool, name: string)

  /** findRemotePort: the first port of that name, or the length when there is none. */
  function Find(ports: seq<Port>, name: string): (i: nat)
    ensures i <= |ports| && (i < |ports| ==> ports[i].name == name) && forall j :: 0 <= j < i ==> ports[j].name != name
  {
    if ports == [] || ports[0].name == name then 0 else 1 + Find(ports[1..], name)
  }

  /** The port NiFi resolves an id to. */
  function FindId(ports: seq<Port>, id: string): (i: nat)
    ensures i <= |ports| && (i < |ports| ==> ports[i].id == id) && forall j :: 0 <= j < i ==> ports[j].id != id
  {
    if ports == [] || ports[0].id == id then 0 else 1 + FindId(ports[1..], id)
  }

  function Pass(ports: seq<Port>, cfg: Config, reset: Batch): (r: seq<Port>)
    ensures |r| == |ports|
  {
    var i := Find(ports, cfg.name);
    if i < |ports| then ports[i := Settled(ports[i], cfg, reset)] else ports
  }

  function Waits(ports: seq<Port>, cfg: Config, output: bool, reset: Batch): (r: seq<Wait>) {
    var i := Find(ports, cfg.name);
    if i == |ports| then [NotDiscovered(output, cfg.name)]
    else if Unconnected(ports[i], cfg, reset) then [NotConnected(output, cfg.name)] else []
  }

  /** A wait names its reason: no port of that name is discovered, or the first one has no connection to
      transmit over. */
  lemma WaitNamesReason(ports: seq<Port>, cfg: Config, output: bool, reset: Batch)
    ensures var waits := Waits(ports, cfg, output, reset);
            && (waits == [NotDiscovered(output, cfg.name)] <==>
                  forall i :: 0 <= i < |ports| ==> ports[i].name != cfg.name)
            && (waits == [NotConnected(output, cfg.name)] <==>
                  exists i :: 0 <= i < |ports| && ports[i].name == cfg.name
                    && (forall j :: 0 <= j < i ==> ports[j].name != cfg.name)
                    && cfg.transmitting && !ports[i].connected
                    && !(ports[i].transmitting && AsConfigured(ports[i], cfg)))
  {
    var i := Find(ports, cfg.name);
    if i < |ports| {
      UnconnectedIff(ports[i], cfg, reset);
    }
  }

  function PassAll(ports: seq<Port>, cfgs: seq<Config>, reset: Batch): (r: seq<Port>)
    ensures |r| == |ports|
  {
    if cfgs == [] then ports else Pass(PassAll(ports, cfgs[..|cfgs| - 1], reset), cfgs[|cfgs| - 1], reset)
  }

  function WaitsAll(ports: seq<Port>, cfgs: seq<Config>, output: bool, reset: Batch): (r: seq<Wait>) {
    if cfgs == [] then []
    else
      var before := cfgs[..|cfgs| - 1];
      WaitsAll(ports, before, output, reset) + Waits(PassAll(ports, before, reset), cfgs[|cfgs| - 1], output, reset)
  }

  predicate DistinctNames(cfgs: seq<Config>) {
    forall i, j :: 0 <= i < j < |cfgs| ==> cfgs[i].name != cfgs[j].name
  }

  predicate DistinctIds(ports: seq<Port>) {
    forall i, j :: 0 <= i < j < |ports| ==> ports[i].id != ports[j].id
  }

  /** The same ports in the same order, perhaps configured differently. */
  predicate SamePorts(a: seq<Port>, b: seq<Port>) {
    |a| == |b| && forall i :: 0 <= i < |a| ==>
      a[i].id == b[i].id && a[i].name == b[i].name && a[i].connected == b[i].connected
  }

  lemma FindStable(a: seq<Port>, b: seq<Port>, name: string)
    requires SamePorts(a, b)
    ensures Find(a, name) == Find(b, name)
  {
  }

  lemma {:induction false} PassAllKeepsPorts(ports: seq<Port>, cfgs: seq<Config>, reset: Batch)
    ensures SamePorts(ports, PassAll(ports, cfgs, reset))
  {
    if cfgs != [] {
      PassAllKeepsPorts(ports, cfgs[..|cfgs| - 1], reset);
    }
  }

  /** Each configured port is settled by its own configuration and every other port is untouched. */
  lemma {:induction false} PassAllExact(ports: seq<Port>, cfgs: seq<Config>, reset: Batch, i: nat)
    requires DistinctNames(cfgs) && i < |ports|
    ensures var r := PassAll(ports, cfgs, reset);
            && (forall c :: 0 <= c < |cfgs| && Find(ports, cfgs[c].name) == i ==>
              r[i] == Settled(ports[i], cfgs[c], reset))
            && ((forall c :: 0 <= c < |cfgs| ==> Find(ports, cfgs[c].name) != i) ==> r[i] == ports[i])
  {
    if cfgs != [] {
      var n := |cfgs| - 1;
      var init := cfgs[..n];
      PassAllExact(ports, init, reset, i);
      PassAllKeepsPorts(ports, init, reset);
      FindStable(ports, PassAll(ports, init, reset), cfgs[n].name);
      assert forall c :: 0 <= c < n ==> init[c] == cfgs[c];
    }
  }

  /** The port is discovered, and it is connected, need not transmit, or already does as configured. */
  ghost predicate CanSettle(ports: seq<Port>, cfg: Config) {
    var i := Find(ports, cfg.name);
    i < |ports| && (ports[i].connected || !cfg.transmitting || (ports[i].transmitting && AsConfigured(ports[i], cfg)))
  }

  lemma PassStep(ports: seq<Port>, cfgs: seq<Config>, i: nat, output: bool, reset: Batch)
    requires i < |cfgs|
    ensures PassAll(ports, cfgs[..i + 1], reset) == Pass(PassAll(ports, cfgs[..i], reset), cfgs[i], reset)
    ensures WaitsAll(ports, cfgs[..i + 1], output, reset)
         == WaitsAll(ports, cfgs[..i], output, reset) + Waits(PassAll(ports, cfgs[..i], reset), cfgs[i], output, reset)
  {
    assert cfgs[..i + 1][..i] == cfgs[..i];
  }

  /** Nothing is waited on exactly when every configured port is discovered and can reach its
      transmission state. */
  lemma {:induction false} WaitsExact(ports: seq<Port>, cfgs: seq<Config>, output: bool, reset: Batch)
    requires DistinctNames(cfgs)
    ensures WaitsAll(ports, cfgs, output, reset) == []
            <==> forall c :: 0 <= c < |cfgs| ==> CanSettle(ports, cfgs[c])
  {
    if cfgs != [] {
      var n := |cfgs| - 1;
      var init := cfgs[..n];
      WaitsExact(ports, init, output, reset);
      LastWaits(ports, cfgs, output, reset);
      assert forall c :: 0 <= c < n ==> init[c] == cfgs[c];
      assert WaitsAll(ports, cfgs, output, reset)
             == WaitsAll(ports, init, output, reset) + Waits(PassAll(ports, init, reset), cfgs[n], output, reset);
    }
  }

  lemma LastWaits(ports: seq<Port>, cfgs: seq<Config>, output: bool, reset: Batch)
    requires DistinctNames(cfgs) && cfgs != []
    ensures var n := |cfgs| - 1;
            Waits(PassAll(ports, cfgs[..n], reset), cfgs[n], output, reset) == [] <==> CanSettle(ports, cfgs[n])
  {
    var n := |cfgs| - 1;
    var init, i := cfgs[..n], Find(ports, cfgs[n].name);
    PassAllKeepsPorts(ports, init, reset);
    FindStable(ports, PassAll(ports, init, reset), cfgs[n].name);
    if i < |ports| {
      UnconnectedIff(ports[i], cfgs[n], reset);
      PassAllExact(ports, init, reset, i);
      assert forall c :: 0 <= c < n ==> init[c].name != cfgs[n].name;
    }
  }

  /** The port has its transmission state and every field its configuration sets, the others as they
      were, with compression on if it was on or is asked for: it is as configured exactly if compression
      need not be turned off. */
  ghost predicate Reached(before: Port, after: Port, cfg: Config) {
    && after.transmitting == cfg.transmitting && HasSetFields(after, cfg) && KeepsOthers(before, after, cfg)
    && after.compression == (before.compression || cfg.compression)
    && (AsConfigured(after, cfg) <==> (before.compression ==> cfg.compression))
  }

  ghost predicate AllReached(before: seq<Port>, after: seq<Port>, cfgs: seq<Config>) {
    |before| == |after| && forall c :: 0 <= c < |cfgs| ==>
      var i := Find(before, cfgs[c].name);
      i < |before| && Reached(before[i], after[i], cfgs[c])
  }

  /** Convergence: after a pass without errors that waits on nothing, every configured port is there and
      has reached its configuration. */
  lemma PassConverges(ports: seq<Port>, cfgs: seq<Config>, output: bool, reset: Batch, c: nat)
    requires DistinctNames(cfgs) && WaitsAll(ports, cfgs, output, reset) == [] && c < |cfgs|
    ensures var r, i := PassAll(ports, cfgs, reset), Find(ports, cfgs[c].name);
            i < |ports| && Find(r, cfgs[c].name) == i && Reached(ports[i], r[i], cfgs[c])
  {
    WaitsExact(ports, cfgs, output, reset);
    assert CanSettle(ports, cfgs[c]);
    var i := Find(ports, cfgs[c].name);
    UnconnectedIff(ports[i], cfgs[c], reset);
    PassAllKeepsPorts(ports, cfgs, reset);
    FindStable(ports, PassAll(ports, cfgs, reset), cfgs[c].name);
    PassAllExact(ports, cfgs, reset, i);
    PassSettlesIff(ports[i], cfgs[c], reset);
  }

  lemma PassReaches(ports: seq<Port>, cfgs: seq<Config>, output: bool, reset: Batch)
    requires DistinctNames(cfgs) && WaitsAll(ports, cfgs, output, reset) == []
    ensures AllReached(ports, PassAll(ports, cfgs, reset), cfgs)
  {
    forall c | 0 <= c < |cfgs|
      ensures var i := Find(ports, cfgs[c].name);
              i < |ports| && Reached(ports[i], PassAll(ports, cfgs, reset)[i], cfgs[c])
    {
      PassConverges(ports, cfgs, output, reset, c);
    }
  }

  // --- the server and the reconciler ---------------------------------------------------------------

  datatype Group = Group(revision: nat, inputs: seq<Port>, outputs: seq<Port>)

  function Side(g: Group, output: bool): (r: seq<Port>) { if output then g.outputs else g.inputs }

  function WithSide(g: Group, output: bool, ports: seq<Port>): (r: Group) {
    if output then g.(outputs := ports) else g.(inputs := ports)
  }

  /** One direction's ports become these, the other direction's stay. */
  predicate Becomes(before: Group, after: Group, output: bool, ports: seq<Port>) {
    Side(after, output) == ports && Side(after, !output) == Side(before, !output)
  }

  lemma FoundById(ports: seq<Port>, i: nat)
    requires i < |ports| && DistinctIds(ports)
    ensures FindId(ports, ports[i].id) == i
  {
  }

  /** A port is found again, by name and by id, after it was changed. */
  lemma FoundAgain(ports: seq<Port>, i: nat, p: Port, name: string)
    requires i < |ports| && Find(ports, name) == i && FindId(ports, ports[i].id) == i && p.id == ports[i].id
             && p.name == ports[i].name
    ensures Find(ports[i := p], name) == i && FindId(ports[i := p], p.id) == i
  {
    var after := ports[i := p];
    assert after[i].name == name && after[i].id == ports[i].id;
    assert forall k :: 0 <= k < i ==> after[k] == ports[k];
  }

  lemma PassAllKeepsIds(ports: seq<Port>, cfgs: seq<Config>, reset: Batch)
    requires DistinctIds(ports)
    ensures DistinctIds(PassAll(ports, cfgs, reset))
  {
    PassAllKeepsPorts(ports, cfgs, reset);
  }

  /** NiFi accepts a call only with the group's current revision, refuses to edit a transmitting port
      and to start an unconnected one: these are the preconditions of its methods. */
  class Server {
    var group: Group
    const reset: Batch

    constructor (group: Group, reset: Batch)
      ensures this.group == group && this.reset == reset
    {
      this.group, this.reset := group, reset;
    }

    method SetRunStatus(output: bool, id: string, revision: nat, transmit: bool, ok: bool)
      requires var i := FindId(Side(group, output), id);
               i < |Side(group, output)| && revision == group.revision
               && (transmit ==> Side(group, output)[i].connected)
      modifies this
      ensures !ok ==> group == old(group)
      ensures ok ==> var ports := Side(old(group), output);
                     var i := FindId(ports, id);
                     && group.revision > old(group.revision)
                     && group
                     == WithSide(old(group), output,
                         ports[i := ports[i].(transmitting := transmit)]).(revision := group.revision)
    {
      if ok {
        var ports := Side(group, output);
        var i := FindId(ports, id);
        group :=
            WithSide(group, output, ports[i := ports[i].(transmitting := transmit)]).(revision := group.revision + 1);
      }
    }

    method UpdatePort(output: bool, id: string, revision: nat, update: Update, ok: bool)
      requires var i := FindId(Side(group, output), id);
               i < |Side(group, output)| && revision == group.revision && !Side(group, output)[i].transmitting
      modifies this
      ensures !ok ==> group == old(group)
      ensures ok ==> var ports := Side(old(group), output);
                     var i := FindId(ports, id);
                     && group.revision > old(group.revision)
                     && group
                     == WithSide(old(group), output,
                         ports[i := Updated(ports[i], update, reset)]).(revision := group.revision)
    {
      if ok {
        var ports := Side(group, output);
        var i := FindId(ports, id);
        group := WithSide(group, output, ports[i := Updated(ports[i], update, reset)]).(revision := group.revision + 1);
      }
    }
  }

  /** Which of the calls made for one port succeed. */
  datatype Outcomes = Outcomes(stopOk: bool, updateOk: bool, runOk: bool, stopSeen: bool, updateSeen: bool,
      runSeen: bool)

  class Reconciler {
    const server: Server
    /** The group as last fetched. */
    var current: Group
    var waitingFor: seq<Wait>

    constructor (server: Server)
      ensures this.server == server && current == server.group && waitingFor == []
    {
      this.server, current, waitingFor := server, server.group, [];
    }

    method Refresh(ok: bool)
      modifies this`current
      ensures current == if ok then server.group else old(current)
    {
      if ok { current := server.group; }
    }

    /** Starts or stops one port and fetches the group again. */
    method Switch(output: bool, i: nat, transmit: bool, sent: bool, seen: bool) returns (ok: bool)
      requires current == server.group && i < |Side(current, output)|
               && FindId(Side(current, output), Side(current, output)[i].id) == i
      requires transmit ==> Side(current, output)[i].connected
      modifies this`current, server
      ensures ok ==> current == server.group
                     && Becomes(old(current), current, output,
                         Side(old(current), output)[i := Side(old(current), output)[i].(transmitting := transmit)])
    {
      server.SetRunStatus(output, Side(current, output)[i].id, current.revision, transmit, sent);
      if !sent { return false; }
      Refresh(seen);
      return seen;
    }

    /** Sends the update of one stopped port and fetches the group again. */
    method Edit(cfg: Config, output: bool, i: nat, sent: bool, seen: bool) returns (ok: bool)
      requires current == server.group && i < |Side(current, output)|
               && FindId(Side(current, output), Side(current, output)[i].id) == i
      requires !Side(current, output)[i].transmitting
      modifies this`current, server
      ensures ok ==> current == server.group
                     && Becomes(old(current), current, output,
                                Side(old(current), output)
                                  [i := Updated(Side(old(current), output)[i], Desired(cfg), server.reset)])
    {
      server.UpdatePort(output, Side(current, output)[i].id, current.revision, Desired(cfg), sent);
      if !sent { return false; }
      Refresh(seen);
      return seen;
    }

    /** Edits one port, stopped first if need be. */
    method Configure(cfg: Config, output: bool, i: nat, calls: Outcomes) returns (ok: bool)
      requires current == server.group && i < |Side(current, output)|
               && FindId(Side(current, output), Side(current, output)[i].id) == i
      requires i == Find(Side(current, output), cfg.name) && Differs(cfg, Side(current, output)[i])
      modifies this`current, server
      ensures ok ==> current == server.group
                     && Becomes(old(current), current, output,
                         Side(old(current), output)[i := Configured(Side(old(current), output)[i], cfg, server.reset)])
    {
      ghost var before := Side(current, output);
      var port := i;
      if Side(current, output)[i].transmitting {
        ok := Switch(output, i, false, calls.stopOk, calls.stopSeen);
        if !ok { return; }
        FoundAgain(before, i, before[i].(transmitting := false), cfg.name);
        port := Find(Side(current, output), cfg.name);
      }
      assert Side(current, output) == before[i := before[i].(transmitting := false)];
      ok := Edit(cfg, output, port, calls.updateOk, calls.updateSeen);
    }

    /** One port: every mutating call carries the server's current revision, and without errors the
        port ends settled, the other ports stay as they were and what is waited on is noted. */
    method ReconcileOne(cfg: Config, output: bool, calls: Outcomes) returns (ok: bool)
      requires current == server.group && DistinctIds(Side(current, output))
      modifies this, server
      ensures ok ==> current == server.group
                     && Becomes(old(current), current, output, Pass(Side(old(current), output), cfg, server.reset))
                     && waitingFor == old(waitingFor) + Waits(Side(old(current), output), cfg, output, server.reset)
      ensures var ports, i := Side(old(current), output), Find(Side(old(current), output), cfg.name);
              i == |ports| || Calls(ports[i], cfg, server.reset) == 0 ==> ok && server.group == old(server.group)
    {
      ghost var before := Side(current, output);
      var i := Find(Side(current, output), cfg.name);
      if i == |Side(current, output)| {
        waitingFor := waitingFor + [NotDiscovered(output, cfg.name)];
        return true;
      }
      FoundById(before, i);
      if Differs(cfg, Side(current, output)[i]) {
        ok := Configure(cfg, output, i, calls);
        if !ok { return; }
        FoundAgain(before, i, Configured(before[i], cfg, server.reset), cfg.name);
        i := Find(Side(current, output), cfg.name);
      }
      assert Side(current, output) == before[i := Configured(before[i], cfg, server.reset)];
      var port := Side(current, output)[i];
      if cfg.transmitting && !port.transmitting && !port.connected {
        waitingFor := waitingFor + [NotConnected(output, cfg.name)];
      } else if cfg.transmitting != port.transmitting {
        ok := Switch(output, i, cfg.transmitting, calls.runOk, calls.runSeen);
        return;
      }
      return true;
    }

    method ReconcileSide(cfgs: seq<Config>, output: bool, calls: seq<Outcomes>) returns (ok: bool)
      requires current == server.group && |calls| == |cfgs| && DistinctIds(Side(current, output))
      modifies this, server
      ensures ok ==> current == server.group
                     && Becomes(old(current), current, output, PassAll(Side(old(current), output), cfgs, server.reset))
                     && waitingFor == old(waitingFor) + WaitsAll(Side(old(current), output), cfgs, output, server.reset)
    {
      ghost var before, waiting, ports := current, waitingFor, Side(current, output);
      for i := 0 to |cfgs|
        invariant current == server.group
        invariant Becomes(before, current, output, PassAll(ports, cfgs[..i], server.reset))
        invariant waitingFor == waiting + WaitsAll(ports, cfgs[..i], output, server.reset)
      {
        PassStep(ports, cfgs, i, output, server.reset);
        PassAllKeepsIds(ports, cfgs[..i], server.reset);
        ok := ReconcileOne(cfgs[i], output, calls[i]);
        if !ok { return; }
      }
      assert cfgs[..|cfgs|] == cfgs;
      ok := true;
    }

    /** reconcileRemoteProcessGroupPorts: on success the group is exactly both passes. */
    method ReconcilePorts(inputs: seq<Config>, outputs: seq<Config>, inputCalls: seq<Outcomes>,
        outputCalls: seq<Outcomes>) returns (ok: bool)
      requires current == server.group && |inputCalls| == |inputs| && |outputCalls| == |outputs| && waitingFor == []
      requires DistinctIds(current.inputs) && DistinctIds(current.outputs)
      modifies this, server
      ensures ok ==> && current == server.group
                     && current.inputs == PassAll(old(current).inputs, inputs, server.reset)
                     && current.outputs == PassAll(old(current).outputs, outputs, server.reset)
                     && waitingFor == WaitsAll(old(current).inputs, inputs, false, server.reset)
                         + WaitsAll(old(current).outputs, outputs, true, server.reset)
      ensures ok && waitingFor == [] ==>
                && (DistinctNames(inputs) ==> AllReached(old(current).inputs, current.inputs, inputs))
                && (DistinctNames(outputs) ==> AllReached(old(current).outputs, current.outputs, outputs))
    {
      ok := ReconcileSide(inputs, false, inputCalls);
      if !ok { return; }
      ok := ReconcileSide(outputs, true, outputCalls);
      if ok && waitingFor == [] {
        if DistinctNames(inputs) { PassReaches(old(current).inputs, inputs, false, server.reset); }
        if DistinctNames(outputs) { PassReaches(old(current).outputs, outputs, true, server.reset); }
      }
    }
  }
}
