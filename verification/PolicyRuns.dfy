/** Many NiFiPolicy objects on one (resource, action): the shared policy through every
    interleaving of their reconciles and deletions. */
module PolicyRuns {
  import opened Text
  import opened Policy

  datatype Kind = User | Group

  /** The policy NiFi holds for the (resource, action). */
  datatype Grant = Grant(id: string, users: seq<TenantRef>, groups: seq<TenantRef>)

  /** What one object's status records: the policy id and the tenants it merged. */
  datatype Recorded = Recorded(nifiId: string, users: seq<string>, groups: seq<string>)

  datatype World = World(policy: Option<Grant>, objects: map<string, Recorded>)

  /** The outcome of the outside calls: `newId` names a created policy, `saved` tells whether the
      last write to the Kubernetes object landed. */
  datatype Answers = Answers(getOk: bool, updateOk: bool, createOk: bool, newId: string, deleteOk: bool, gone: bool,
      clusterOk: bool, saved: bool)

  predicate NeedsUpdate(policy: Grant, users: seq<TenantRef>, groups: seq<TenantRef>) {
    !ContainsAll(policy.users, users) || !ContainsAll(policy.groups, groups)
  }

  function Record(w: World, name: string, id: string, users: seq<string>, groups: seq<string>,
      saved: bool): (r: World) {
    if saved then w.(objects := w.objects[name := Recorded(id, users, groups)]) else w
  }

  /** Reconcile of one object whose tenants resolved to these ids. Looking the policy up by the
      recorded id and then by (action, resource) finds it whenever it exists. */
  function Reconcile(w: World, name: string, users: seq<string>, groups: seq<string>, a: Answers): (r: World) {
    if !a.getOk then w
    else if w.policy.None? then
      if !a.createOk then w
      else Record(w.(policy := Some(Grant(a.newId, Plain(users), Plain(groups)))), name, a.newId, users, groups,
          a.saved)
    else
      var p := w.policy.value;
      if !NeedsUpdate(p, Plain(users), Plain(groups)) then Record(w, name, p.id, users, groups, a.saved)
      else if !a.updateOk then w
      else
        var merged := p.(users := Merge(p.users, Plain(users)), groups := Merge(p.groups, Plain(groups)));
        Record(w.(policy := Some(merged)), name, p.id, users, groups, a.saved)
  }

  function Forget(w: World, name: string, saved: bool): (r: World) {
    if saved then w.(objects := w.objects - {name}) else w
  }

  /** What the policy becomes when an object takes its recorded tenants out. */
  function Withdrawn(p: Grant, own: Recorded): (r: Option<Grant>) {
    var users, groups := Remove(p.users, own.users), Remove(p.groups, own.groups);
    if users == [] && groups == [] then None
    else if SameTenants(users, p.users) && SameTenants(groups, p.groups) then Some(p)
    else Some(p.(users := users, groups := groups))
  }

  /** Deletion of one object; `deletes` is its deletion policy. */
  function Delete(w: World, name: string, deletes: bool, a: Answers): (r: World) {
    if name !in w.objects then w
    else
      var own := w.objects[name];
      if !deletes || own.nifiId == "" || a.gone then Forget(w, name, a.saved)
      else if !a.clusterOk then w
      else if w.policy.None? || w.policy.value.id != own.nifiId then (if a.getOk then Forget(w, name, a.saved) else w)
      else if !a.getOk then w
      else
        var left := Withdrawn(w.policy.value, own);
        if left == w.policy then Forget(w, name, a.saved)
        else if left.None? then (if a.deleteOk then Forget(w.(policy := None), name, a.saved) else w)
        else if a.updateOk then Forget(w.(policy := left), name, a.saved)
        else w
  }

  // --- who is granted, who is recorded -----------------------------------------------------------

  function Granted(w: World, kind: Kind): (r: set<string>) {
    if w.policy.None? then {} else match kind case User =>
      Ids(w.policy.value.users) case Group => Ids(w.policy.value.groups)
  }

  function Own(r: Recorded, kind: Kind): (ids: seq<string>) {
    match kind case User => r.users case Group => r.groups
  }

  predicate IsRecorded(w: World, kind: Kind, id: string) {
    exists name :: name in w.objects && id in Own(w.objects[name], kind)
  }

  /** Others may create the policy or add tenants to it. */
  ghost predicate EnvStep(w: World, v: World) {
    && v.objects == w.objects
    && (forall kind :: Granted(w, kind) <= Granted(v, kind))
    && (w.policy.Some? ==> v.policy.Some? && v.policy.value.id == w.policy.value.id)
  }

  ghost predicate ReconcileStep(w: World, v: World) {
    exists name, users, groups, a :: v == Reconcile(w, name, users, groups, a)
  }

  ghost predicate DeleteStep(w: World, v: World) {
    exists name, deletes, a :: v == Delete(w, name, deletes, a)
  }

  ghost predicate IsRun(run: seq<World>) {
    |run| > 0 && forall i :: 0 <= i < |run| - 1 ==>
      EnvStep(run[i], run[i + 1]) || ReconcileStep(run[i], run[i + 1]) || DeleteStep(run[i], run[i + 1])
  }

  // --- one step ----------------------------------------------------------------------------------

  function Named(ids: seq<string>): (r: set<string>) {
    (set id | id in ids) - {""}
  }

  lemma PlainIds(ids: seq<string>)
    ensures Ids(Plain(ids)) == Named(ids)
  {
    forall i | 0 <= i < |ids| ensures TenantId(Plain(ids)[i]) == ids[i] {
    }
    forall id | id in Named(ids) ensures id in Ids(Plain(ids)) {
      var i :| 0 <= i < |ids| && ids[i] == id;
      assert Plain(ids)[i] in Plain(ids);
    }
  }

  function Desired(users: seq<string>, groups: seq<string>, kind: Kind): (r: set<string>) {
    match kind case User => Named(users) case Group => Named(groups)
  }

  /** A reconcile that goes through grants exactly what was granted before and what is desired, and
      leaves nothing to update. */
  lemma ReconcileGrants(w: World, name: string, users: seq<string>, groups: seq<string>, a: Answers)
    requires a.getOk && a.createOk && a.updateOk
    ensures var r := Reconcile(w, name, users, groups, a);
            && r.policy.Some? && !NeedsUpdate(r.policy.value, Plain(users), Plain(groups))
            && (forall kind :: Granted(r, kind) == Granted(w, kind) + Desired(users, groups, kind))
  {
    PlainIds(users);
    PlainIds(groups);
    if w.policy.Some? {
      MergeExact(w.policy.value.users, Plain(users));
      MergeExact(w.policy.value.groups, Plain(groups));
    }
  }

  /** It grants exactly the desired tenants if and only if nobody else was granted before. */
  lemma GrantsExactlyIff(w: World, name: string, users: seq<string>, groups: seq<string>, a: Answers, kind: Kind)
    requires a.getOk && a.createOk && a.updateOk
    ensures Granted(Reconcile(w, name, users, groups, a), kind) == Desired(users, groups, kind)
            <==> Granted(w, kind) <= Desired(users, groups, kind)
  {
    ReconcileGrants(w, name, users, groups, a);
  }

  lemma ReconcileOnlyAdds(w: World, name: string, users: seq<string>, groups: seq<string>, a: Answers, kind: Kind)
    ensures Granted(w, kind) <= Granted(Reconcile(w, name, users, groups, a), kind)
  {
    if w.policy.Some? {
      MergeExact(w.policy.value.users, Plain(users));
      MergeExact(w.policy.value.groups, Plain(groups));
    }
  }

  lemma WithdrawnExact(p: Grant, own: Recorded, kind: Kind, objects: map<string, Recorded>)
    ensures Granted(World(Withdrawn(p, own), objects), kind)
            == Granted(World(Some(p), objects), kind) - Named(Own(own, kind))
  {
    RemoveExact(p.users, own.users);
    RemoveExact(p.groups, own.groups);
    SameTenantsAfterRemoval(p.users, own.users);
    SameTenantsAfterRemoval(p.groups, own.groups);
  }

  /** A deletion removes at most the tenants its object recorded. */
  lemma DeleteRemovesOnlyOwn(w: World, name: string, deletes: bool, a: Answers, kind: Kind)
    requires name in w.objects
    ensures var r := Delete(w, name, deletes, a);
            Granted(r, kind) == Granted(w, kind)
            || Granted(r, kind) == Granted(w, kind) - Named(Own(w.objects[name], kind))
  {
    if w.policy.Some? {
      WithdrawnExact(w.policy.value, w.objects[name], kind, w.objects);
    }
  }

  /** A deletion takes a tenant away exactly when the object deletes, its policy is the live one,
      it recorded that tenant, and the calls go through. Whether another object records the same
      tenant plays no part. */
  lemma DeleteRevokesIff(w: World, name: string, deletes: bool, a: Answers, kind: Kind, id: string)
    requires name in w.objects && id in Granted(w, kind) && a.clusterOk && !a.gone && a.getOk && a.updateOk
             && a.deleteOk
    ensures id !in Granted(Delete(w, name, deletes, a), kind)
            <==> && deletes && w.objects[name].nifiId != "" && w.policy.value.id == w.objects[name].nifiId
                 && id in Own(w.objects[name], kind)
  {
    WithdrawnExact(w.policy.value, w.objects[name], kind, w.objects);
  }

  /** The policy is deleted only when the deleting object recorded every tenant it holds, and no
      reference without an id is left. */
  lemma PolicyDeletedOnlyWhenOwned(w: World, name: string, deletes: bool, a: Answers, kind: Kind)
    requires name in w.objects && w.policy.Some? && Delete(w, name, deletes, a).policy.None?
    ensures Granted(w, kind) <= Named(Own(w.objects[name], kind))
    ensures forall t :: t in w.policy.value.users + w.policy.value.groups ==> TenantId(t) != ""
  {
    var p, own := w.policy.value, w.objects[name];
    WithdrawnExact(p, own, kind, w.objects);
    RemoveExact(p.users, own.users);
    RemoveExact(p.groups, own.groups);
    assert Remove(p.users, own.users) == [] && Remove(p.groups, own.groups) == [];
  }

  /** A saved reconcile records the policy it granted on and exactly the desired tenants, for its own
      object alone; an unsaved one records nothing. A reconcile with nothing to add writes nothing. */
  lemma ReconcileRecords(w: World, name: string, users: seq<string>, groups: seq<string>, a: Answers)
    requires a.getOk && a.createOk && a.updateOk
    ensures var r := Reconcile(w, name, users, groups, a);
            && r.policy.Some? && r.policy.value.id == (if w.policy.Some? then w.policy.value.id else a.newId)
            && (forall other :: other != name ==> (other in r.objects <==> other in w.objects))
            && (forall other :: other in w.objects && other != name ==> r.objects[other] == w.objects[other])
            && (if a.saved
                then name in r.objects && r.objects[name].nifiId == r.policy.value.id
                     && r.objects[name].users == users && r.objects[name].groups == groups
                else r.objects == w.objects)
            && (w.policy.Some? && (forall kind :: Desired(users, groups, kind) <= Granted(w, kind)) ==>
              r.policy == w.policy)
  {
    PlainIds(users);
    PlainIds(groups);
    if w.policy.Some? && forall kind :: Desired(users, groups, kind) <= Granted(w, kind) {
      assert Desired(users, groups, User) <= Granted(w, User) && Desired(users, groups, Group) <= Granted(w, Group);
    }
  }

  /** Deleting an object after a saved reconcile takes back exactly the tenants that reconcile asked
      for, also those somebody else had granted before, and forgets the object. */
  lemma DeleteAfterReconcile(w: World, name: string, users: seq<string>, groups: seq<string>, a: Answers, d: Answers,
      kind: Kind)
    requires a.getOk && a.createOk && a.updateOk && a.saved
    requires if w.policy.Some? then w.policy.value.id != "" else a.newId != ""
    requires d.clusterOk && !d.gone && d.getOk && d.updateOk && d.deleteOk && d.saved
    ensures var r := Delete(Reconcile(w, name, users, groups, a), name, true, d);
            Granted(r, kind) == Granted(w, kind) - Desired(users, groups, kind) && name !in r.objects
  {
    var v := Reconcile(w, name, users, groups, a);
    ReconcileGrants(w, name, users, groups, a);
    ReconcileRecords(w, name, users, groups, a);
    WithdrawnExact(v.policy.value, v.objects[name], kind, v.objects);
    assert Named(Own(v.objects[name], kind)) == Desired(users, groups, kind);
    var r := Delete(v, name, true, d);
    assert r.policy == Withdrawn(v.policy.value, v.objects[name]);
    assert Granted(r, kind) == Granted(World(r.policy, v.objects), kind);
    assert Granted(v, kind) == Granted(World(v.policy, v.objects), kind);
  }

  /** An object is forgotten by its own deletion and by no other step. */
  lemma ForgottenOnlyByDeletion(w: World, name: string, deletes: bool, a: Answers)
    ensures var r := Delete(w, name, deletes, a);
            && (forall other :: other != name && other in w.objects ==>
              other in r.objects && r.objects[other] == w.objects[other])
            && (forall other :: other in r.objects ==> other in w.objects)
            && (name in w.objects && name !in r.objects ==> a.saved)
            && (name in w.objects && name in r.objects ==> r.objects[name] == w.objects[name])
  {
  }

  // --- whole runs --------------------------------------------------------------------------------

  lemma StepKeeps(w: World, v: World, kind: Kind, id: string)
    requires EnvStep(w, v) || ReconcileStep(w, v) || DeleteStep(w, v)
    requires id in Granted(w, kind) && !IsRecorded(w, kind, id)
    ensures id in Granted(v, kind)
  {
    if ReconcileStep(w, v) {
      var name, users, groups, a :| v == Reconcile(w, name, users, groups, a);
      ReconcileOnlyAdds(w, name, users, groups, a, kind);
    } else if DeleteStep(w, v) {
      var name, deletes, a :| v == Delete(w, name, deletes, a);
      if name in w.objects {
        DeleteRemovesOnlyOwn(w, name, deletes, a, kind);
      }
    }
  }

  /** Over any interleaving of reconciles and deletions, with or without lost status writes, a
      tenant that no object records stays granted, so the policy that holds it is never deleted. */
  lemma {:induction false} UnrecordedTenantsStay(run: seq<World>, k: nat, kind: Kind, id: string)
    requires IsRun(run) && k < |run| && id in Granted(run[0], kind)
    requires forall m :: 0 <= m < k ==> !IsRecorded(run[m], kind, id)
    ensures id in Granted(run[k], kind) && run[k].policy.Some?
  {
    if k > 0 {
      UnrecordedTenantsStay(run, k - 1, kind, id);
      assert EnvStep(run[k - 1], run[k - 1 + 1]) || ReconcileStep(run[k - 1], run[k - 1 + 1])
             || DeleteStep(run[k - 1], run[k - 1 + 1]);
      StepKeeps(run[k - 1], run[k], kind, id);
    }
  }

  /** Dropping a tenant from an object's spec does not revoke it: the reconcile forgets the record,
      and from then on, while no object records the tenant again, no run takes it away. */
  lemma DroppedTenantStays(w: World, name: string, users: seq<string>, groups: seq<string>, a: Answers,
      run: seq<World>, k: nat, kind: Kind, id: string)
    requires IsRun(run) && k < |run| && run[0] == Reconcile(w, name, users, groups, a) && a.saved
    requires id in Granted(w, kind) && id !in Desired(users, groups, kind)
    requires forall m :: 0 <= m < k ==> !IsRecorded(run[m], kind, id)
    ensures id in Granted(run[k], kind)
  {
    ReconcileOnlyAdds(w, name, users, groups, a, kind);
    UnrecordedTenantsStay(run, k, kind, id);
  }

  /** A tenant shared by two objects is lost when one is deleted, and the next reconcile of the
      other grants it again. */
  lemma SharedTenantComesBack(w: World, gone: string, name: string, users: seq<string>, groups: seq<string>,
      a: Answers, kind: Kind, id: string)
    requires gone in w.objects && w.policy.Some? && w.objects[gone].nifiId == w.policy.value.id != ""
             && id in Own(w.objects[gone], kind) && id != ""
    requires a.clusterOk && !a.gone && a.getOk && a.updateOk && a.deleteOk && a.createOk
             && id in Desired(users, groups, kind)
    ensures id !in Granted(Delete(w, gone, true, a), kind)
    ensures id in Granted(Reconcile(Delete(w, gone, true, a), name, users, groups, a), kind)
  {
    if id in Granted(w, kind) {
      DeleteRevokesIff(w, gone, true, a, kind, id);
    } else {
      DeleteRemovesOnlyOwn(w, gone, true, a, kind);
    }
    ReconcileGrants(Delete(w, gone, true, a), name, users, groups, a);
  }

  // --- the controller ----------------------------------------------------------------------------

  class PolicyController {
    var policy: Option<Grant>
    var objects: map<string, Recorded>

    constructor (w: World)
      ensures State() == w
    {
      policy, objects := w.policy, w.objects;
    }

    function State(): (w: World)
      reads this
    {
      World(policy, objects)
    }

    method MarkReady(name: string, id: string, users: seq<string>, groups: seq<string>, saved: bool)
      modifies this`objects
      ensures State() == Record(old(State()), name, id, users, groups, saved)
    {
      if saved { objects := objects[name := Recorded(id, users, groups)]; }
    }

    method ReconcilePolicy(name: string, users: seq<string>, groups: seq<string>, a: Answers)
      modifies this
      ensures State() == Reconcile(old(State()), name, users, groups, a)
    {
      if !a.getOk { return; }
      var desiredUsers, desiredGroups := Plain(users), Plain(groups);
      if policy.None? {
        if !a.createOk { return; }
        policy := Some(Grant(a.newId, desiredUsers, desiredGroups));
        MarkReady(name, a.newId, users, groups, a.saved);
        return;
      }
      var existing := policy.value;
      var hasUsers := TenantSetContainsAll(existing.users, desiredUsers);
      var hasGroups := TenantSetContainsAll(existing.groups, desiredGroups);
      if !hasUsers || !hasGroups {
        var mergedUsers := MergeTenantRefs(existing.users, desiredUsers);
        var mergedGroups := MergeTenantRefs(existing.groups, desiredGroups);
        if !a.updateOk { return; }
        policy := Some(existing.(users := mergedUsers, groups := mergedGroups));
      }
      MarkReady(name, existing.id, users, groups, a.saved);
    }

    method RemoveFinalizer(name: string, saved: bool)
      modifies this`objects
      ensures State() == Forget(old(State()), name, saved)
    {
      if saved { objects := objects - {name}; }
    }

    method DeletePolicy(name: string, deletes: bool, a: Answers)
      modifies this
      ensures State() == Delete(old(State()), name, deletes, a)
    {
      if name !in objects { return; }
      var own := objects[name];
      if !deletes || own.nifiId == "" || a.gone { RemoveFinalizer(name, a.saved); return; }
      if !a.clusterOk || !a.getOk { return; }
      if policy.Some? && policy.value.id == own.nifiId {
        var existing := policy.value;
        var users := RemoveTenantRefs(existing.users, own.users);
        var groups := RemoveTenantRefs(existing.groups, own.groups);
        var sameUsers := SameTenantSet(users, existing.users);
        var sameGroups := SameTenantSet(groups, existing.groups);
        SameTenantsAfterRemoval(existing.users, own.users);
        SameTenantsAfterRemoval(existing.groups, own.groups);
        if users == [] && groups == [] {
          if !a.deleteOk { return; }
          policy := None;
        } else if !sameUsers || !sameGroups {
          if !a.updateOk { return; }
          policy := Some(existing.(users := users, groups := groups));
        }
      }
      RemoveFinalizer(name, a.saved);
    }
  }
}
