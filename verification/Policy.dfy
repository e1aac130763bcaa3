/** Access policies shared by several NiFiPolicy objects (nifipolicy_controller.go, tenants.go):
    each object merges its tenants into the one policy of a (resource, action) and, when deleted,
    takes out the tenants it recorded. */
module Policy {
  import opened Text

  // --- tenant references -----------------------------------------------------------------------

  datatype TenantRef = TenantRef(id: string, component: Option<string>)

  /** The reference's own id, or else its component's. */
  function TenantId(t: TenantRef): (id: string)
    ensures t.id != "" ==> id == t.id
    ensures t.id == "" && t.component.Some? ==> id == t.component.value
  {
    if t.id != "" then t.id else if t.component.Some? then t.component.value else ""
  }

  function AllIds(refs: seq<TenantRef>): (r: set<string>) {
    set t | t in refs :: TenantId(t)
  }

  /** The tenants a list names; references without an id name nobody. */
  function Ids(refs: seq<TenantRef>): (r: set<string>) {
    AllIds(refs) - {""}
  }

  function Plain(ids: seq<string>): (r: seq<TenantRef>) {
    seq(|ids|, i requires 0 <= i < |ids| => TenantRef(ids[i], None))
  }

  function Merge(existing: seq<TenantRef>, desired: seq<TenantRef>): (r: seq<TenantRef>) {
    if desired == [] then existing
    else
      var before, id := Merge(existing, desired[..|desired| - 1]), TenantId(desired[|desired| - 1]);
      if id == "" || id in Ids(before) then before else before + [TenantRef(id, None)]
  }

  function Remove(existing: seq<TenantRef>, ids: seq<string>): (r: seq<TenantRef>) {
    if existing == [] then []
    else
      var before, last := Remove(existing[..|existing| - 1], ids), existing[|existing| - 1];
      if TenantId(last) != "" && TenantId(last) in ids then before else before + [last]
  }

  predicate ContainsAll(existing: seq<TenantRef>, desired: seq<TenantRef>) {
    Ids(desired) <= Ids(existing)
  }

  predicate SameTenants(left: seq<TenantRef>, right: seq<TenantRef>) {
    |left| == |right| && AllIds(right) <= AllIds(left)
  }

  predicate Distinct(refs: seq<TenantRef>) {
    forall i, j :: 0 <= i < j < |refs| ==> TenantId(refs[i]) != TenantId(refs[j])
  }

  // --- the four helpers as the controller runs them ----------------------------------------------

  lemma IdsGrow(refs: seq<TenantRef>, i: nat)
    requires i < |refs|
    ensures AllIds(refs[..i + 1]) == AllIds(refs[..i]) + {TenantId(refs[i])}
  {
    assert refs[..i + 1] == refs[..i] + [refs[i]];
  }

  method MergeTenantRefs(existing: seq<TenantRef>, desired: seq<TenantRef>) returns (out: seq<TenantRef>)
    ensures out == Merge(existing, desired)
  {
    out := existing;
    var seen: set<string> := {};
    for i := 0 to |existing|
      invariant seen == Ids(existing[..i])
    {
      IdsGrow(existing, i);
      if TenantId(existing[i]) != "" { seen := seen + {TenantId(existing[i])}; }
    }
    assert existing[..|existing|] == existing;
    for i := 0 to |desired|
      invariant out == Merge(existing, desired[..i]) && seen == Ids(out)
    {
      assert desired[..i + 1][..i] == desired[..i];
      var id := TenantId(desired[i]);
      if id == "" || id in seen { continue; }
      ghost var before := out;
      out := out + [TenantRef(id, None)];
      assert out[..|before|] == before && out[..|before| + 1] == out;
      IdsGrow(out, |before|);
      seen := seen + {id};
    }
    assert desired[..|desired|] == desired;
  }

  method RemoveTenantRefs(existing: seq<TenantRef>, removeIds: seq<string>) returns (out: seq<TenantRef>)
    ensures out == Remove(existing, removeIds)
  {
    var remove: set<string> := {};
    for i := 0 to |removeIds|
      invariant forall id :: id in remove <==> id != "" && id in removeIds[..i]
    {
      if removeIds[i] != "" { remove := remove + {removeIds[i]}; }
    }
    assert removeIds[..|removeIds|] == removeIds;
    out := [];
    for i := 0 to |existing|
      invariant out == Remove(existing[..i], removeIds)
    {
      assert existing[..i + 1][..i] == existing[..i];
      if TenantId(existing[i]) !in remove { out := out + [existing[i]]; }
    }
    assert existing[..|existing|] == existing;
  }

  method TenantSetContainsAll(existing: seq<TenantRef>, desired: seq<TenantRef>) returns (ok: bool)
    ensures ok == ContainsAll(existing, desired)
  {
    var seen: set<string> := {};
    for i := 0 to |existing|
      invariant seen == Ids(existing[..i])
    {
      IdsGrow(existing, i);
      if TenantId(existing[i]) != "" { seen := seen + {TenantId(existing[i])}; }
    }
    assert existing[..|existing|] == existing;
    for i := 0 to |desired|
      invariant Ids(desired[..i]) <= seen
    {
      IdsGrow(desired, i);
      var id := TenantId(desired[i]);
      if id != "" && id !in seen {
        assert id in Ids(desired);
        return false;
      }
    }
    assert desired[..|desired|] == desired;
    return true;
  }

  method SameTenantSet(left: seq<TenantRef>, right: seq<TenantRef>) returns (same: bool)
    ensures same == SameTenants(left, right)
  {
    if |left| != |right| { return false; }
    var ids: set<string> := {};
    for i := 0 to |left|
      invariant ids == AllIds(left[..i])
    {
      IdsGrow(left, i);
      ids := ids + {TenantId(left[i])};
    }
    assert left[..|left|] == left;
    for i := 0 to |right|
      invariant AllIds(right[..i]) <= ids
    {
      IdsGrow(right, i);
      if TenantId(right[i]) !in ids {
        assert TenantId(right[i]) in AllIds(right);
        return false;
      }
    }
    assert right[..|right|] == right;
    return true;
  }

  // --- what they compute -------------------------------------------------------------------------

  lemma AppendId(refs: seq<TenantRef>, t: TenantRef)
    ensures AllIds(refs + [t]) == AllIds(refs) + {TenantId(t)}
    ensures Distinct(refs) && TenantId(t) !in AllIds(refs) ==> Distinct(refs + [t])
  {
    forall i | 0 <= i < |refs| ensures TenantId(refs[i]) in AllIds(refs) {
      assert refs[i] in refs;
    }
  }

  predicate Merges(existing: seq<TenantRef>, named: set<string>, merged: seq<TenantRef>) {
    existing <= merged && Ids(merged) == Ids(existing) + named && (Distinct(existing) ==> Distinct(merged))
  }

  lemma MergeOne(existing: seq<TenantRef>, named: set<string>, merged: seq<TenantRef>, id: string)
    requires Merges(existing, named, merged)
    ensures Merges(existing, named + ({id} - {""}),
                   if id == "" || id in Ids(merged) then merged else merged + [TenantRef(id, None)])
  {
    if id != "" && id !in Ids(merged) {
      var t := TenantRef(id, None);
      AppendId(merged, t);
      assert TenantId(t) == id;
      assert Ids(merged + [t]) == Ids(merged) + {id};
      assert existing <= merged + [t];
    }
  }

  /** A merge keeps every existing reference in place and adds exactly the missing tenants. */
  lemma {:induction false} MergeExact(existing: seq<TenantRef>, desired: seq<TenantRef>)
    ensures Merges(existing, Ids(desired), Merge(existing, desired))
  {
    if desired != [] {
      var n := |desired| - 1;
      MergeExact(existing, desired[..n]);
      assert desired[..n] + [desired[n]] == desired;
      AppendId(desired[..n], desired[n]);
      assert Ids(desired) == Ids(desired[..n]) + ({TenantId(desired[n])} - {""});
      MergeOne(existing, Ids(desired[..n]), Merge(existing, desired[..n]), TenantId(desired[n]));
    }
  }

  /** After a merge there is nothing left to update, and a second merge changes nothing. */
  lemma MergeSettles(existing: seq<TenantRef>, desired: seq<TenantRef>)
    ensures ContainsAll(Merge(existing, desired), desired)
    ensures Merge(Merge(existing, desired), desired) == Merge(existing, desired)
  {
    MergeExact(existing, desired);
    MergeNothing(Merge(existing, desired), desired);
  }

  lemma {:induction false} MergeNothing(existing: seq<TenantRef>, desired: seq<TenantRef>)
    requires ContainsAll(existing, desired)
    ensures Merge(existing, desired) == existing
  {
    if desired != [] {
      var n := |desired| - 1;
      assert desired[..n + 1] == desired;
      IdsGrow(desired, n);
      MergeNothing(existing, desired[..n]);
    }
  }

  /** A removal keeps exactly the references not named, in order. */
  lemma {:induction false} RemoveExact(existing: seq<TenantRef>, ids: seq<string>)
    ensures forall t :: t in Remove(existing, ids) <==> t in existing && !(TenantId(t) != "" && TenantId(t) in ids)
    ensures Ids(Remove(existing, ids)) == Ids(existing) - (set id | id in ids)
    ensures |Remove(existing, ids)| <= |existing|
    ensures |Remove(existing, ids)| == |existing| ==> Remove(existing, ids) == existing
  {
    if existing != [] {
      RemoveExact(existing[..|existing| - 1], ids);
      assert existing == existing[..|existing| - 1] + [existing[|existing| - 1]];
    }
  }

  lemma {:induction false} IdsAtMost(refs: seq<TenantRef>)
    ensures |AllIds(refs)| <= |refs|
    ensures Distinct(refs) ==> |AllIds(refs)| == |refs|
  {
    if refs != [] {
      var n := |refs| - 1;
      IdsAtMost(refs[..n]);
      IdsGrow(refs, n);
      assert refs[..n + 1] == refs;
      assert Distinct(refs) ==> TenantId(refs[n]) !in AllIds(refs[..n]);
    }
  }

  lemma SubsetOfEqualSize(a: set<string>, b: set<string>)
    requires a <= b && |a| >= |b|
    ensures a == b
  {
    assert b == a + (b - a);
    assert |b| == |a| + |b - a|;
  }

  /** sameTenantSet is set equality when its right-hand list has no duplicates. */
  lemma SameTenantsExact(left: seq<TenantRef>, right: seq<TenantRef>)
    requires Distinct(right)
    ensures SameTenants(left, right) <==> |left| == |right| && AllIds(left) == AllIds(right)
    ensures Distinct(left) ==> (SameTenants(left, right) <==> AllIds(left) == AllIds(right))
  {
    IdsAtMost(left);
    IdsAtMost(right);
    if SameTenants(left, right) {
      SubsetOfEqualSize(AllIds(right), AllIds(left));
    }
  }

  /** With duplicates it is not. */
  lemma SameTenantsNeedsDistinct()
    ensures var a, b := TenantRef("a", None), TenantRef("b", None);
            SameTenants([a, b], [a, a]) && AllIds([a, b]) != AllIds([a, a])
  {
    var a, b := TenantRef("a", None), TenantRef("b", None);
    assert TenantId(a) == "a" && TenantId(b) == "b";
    assert b in [a, b];
    assert "b" in AllIds([a, b]);
    assert "a"[0] != "b"[0];
    assert "b" !in AllIds([a, a]);
  }

  /** Where the controller uses it, on a removal and its origin, it is exact even with duplicates. */
  lemma SameTenantsAfterRemoval(existing: seq<TenantRef>, ids: seq<string>)
    ensures SameTenants(Remove(existing, ids), existing) <==> Remove(existing, ids) == existing
  {
    RemoveExact(existing, ids);
  }
}
