/** The loops of flow_deployment_drift.go, proved against the normal form and the full
    comparison: maps are walked in any order, and the differ stops early at its cap. */
module DriftRun {
  import opened Text
  import opened Drift
  import opened DriftLaws
  import opened DriftDiff
  import opened DriftSeen

  const MAX_DIFFERENCES := 20

  ghost function Capped(s: seq<string>): (r: seq<string>) {
    if |s| <= MAX_DIFFERENCES then s else s[..MAX_DIFFERENCES]
  }

  /** The entry is the displayed path of a location where the trees really disagree. */
  ghost predicate NamesDisagreement(entry: string, a: Json, b: Json) {
    exists at :: entry == Display(Render(at)) && Disagree(a, b, at)
  }

  /** The normal form, which NormalizeSees shows to be the same for exactly the equivalent trees. */
  method NormalizeFlowValue(v: Json, path: string, ignored: seq<string>) returns (r: Option<Json>)
    ensures r == Normalize(v, path, ignored)
    ensures r.None? <==> Empty(v, path, ignored)
    ensures forall other :: r == Normalize(other, path, ignored) <==> Equivalent(v, other, path, ignored)
    decreases v, 1
  {
    EmptyIff(v, path, ignored);
    forall other
      ensures Normalize(v, path, ignored) == Normalize(other, path, ignored) <==> Equivalent(v, other, path, ignored)
    {
      NormalizeSees(v, other, path, ignored);
    }
    match v
    case Obj(_) =>
      var normalized := NormalizeFlowObject(v, path, ignored);
      r := if normalized != map[] then Some(Obj(normalized)) else None;
    case List(items) =>
      var normalized := NormalizeFlowList(items, path, ignored);
      if Identifiable(normalized) { normalized := StableSort(normalized); }
      StableSortCorrect(NormalizeItems(items, path, ignored));
      r := if normalized != [] then Some(List(normalized)) else None;
    case Null => r := None;
    case Str(s) => r := if s == "" then None else Some(v);
    case Num(text, float) => r := if float.None? then Some(Str(text)) else Some(Float(float.value));
    case Bool(_) => r := Some(v);
    case Float(_) => r := Some(v);
  }

  /** The fields in whatever order the map yields them. */
  method NormalizeFlowObject(v: Json, path: string, ignored: seq<string>) returns (normalized: map<string, Json>)
    requires v.Obj?
    ensures normalized == NormalizeFields(v, path, ignored)
    decreases v, 0
  {
    normalized := map[];
    var left := v.fields.Keys;
    while left != {}
      invariant left <= v.fields.Keys
      invariant normalized == NormalizeFields(v, path, ignored) - left
      decreases left
    {
      var key :| key in left;
      left := left - {key};
      if !Dropped(path, key, v.fields[key], ignored) {
        var child := NormalizeFlowValue(v.fields[key], ChildPath(path, key), ignored);
        if child.Some? { normalized := normalized[key := child.value]; }
      }
    }
    assert normalized == NormalizeFields(v, path, ignored);
  }

  method NormalizeFlowList(items: seq<Json>, path: string, ignored: seq<string>) returns (normalized: seq<Json>)
    ensures normalized == NormalizeItems(items, path, ignored)
    decreases items, 0
  {
    normalized := [];
    for i := 0 to |items|
      invariant normalized == NormalizeItems(items[..i], path, ignored)
    {
      var child := NormalizeFlowValue(items[i], path, ignored);
      ItemsGrow(items, i, path, ignored);
      if child.Some? { normalized := normalized + [child.value]; }
    }
    assert items[..|items|] == items;
  }

  method NormalizeFlowSnapshot(v: Json, ignored: seq<string>) returns (r: Json)
    ensures r == NormalizeSnapshot(v, ignored)
  {
    var n := NormalizeFlowValue(v, "", ignored);
    r := if n.Some? then n.value else Obj(map[]);
  }

  /** The difference list that collectFlowDifferences appends to through its pointer. */
  class DifferenceLog {
    var entries: seq<string>

    constructor ()
      ensures entries == []
    {
      entries := [];
    }

    method Add(path: string)
      modifies this
      ensures entries == old(entries) + [Display(path)]
    {
      entries := entries + [Display(path)];
    }

    /** The capped walk appends exactly the first differences of the full comparison that still
        fit under the cap. */
    method Collect(desired: Json, live: Json, path: string, ghost at: seq<Step>)
      requires path == Render(at)
      requires |entries| <= MAX_DIFFERENCES
      modifies this
      ensures entries == Capped(old(entries) + Displays(Differences(desired, live, at)))
      decreases desired, 1
    {
      if |entries| >= MAX_DIFFERENCES || desired == live { return; }
      if desired.Obj? && live.Obj? {
        CollectFields(desired, live, path, at);
      } else if desired.List? && live.List? && |desired.items| == |live.items| {
        CollectItems(desired, live, path, at);
      } else {
        Add(path);
        assert Displays([at]) == [Display(path)];
      }
    }

    method CollectFields(desired: Json, live: Json, path: string, ghost at: seq<Step>)
      requires desired.Obj? && live.Obj?
      requires path == Render(at)
      requires |entries| < MAX_DIFFERENCES
      modifies this
      ensures entries
              == Capped(old(entries)
                  + Displays(FieldDifferences(desired, live, SortedKeys(desired.fields.Keys + live.fields.Keys), at)))
      decreases desired, 0, 1
    {
      var keys := desired.fields.Keys + live.fields.Keys;
      var ordered := SortKeys(keys);
      SortedKeysUnique(ordered, SortedKeys(keys), keys);
      ghost var before := entries;
      var i := 0;
      while i < |ordered|
        invariant 0 <= i <= |ordered|
        invariant |entries| <= MAX_DIFFERENCES
        invariant Capped(before + Displays(FieldDifferences(desired, live, ordered, at)))
               == Capped(entries + Displays(FieldDifferences(desired, live, ordered[i..], at)))
      {
        var k := ordered[i];
        ghost var here := entries;
        CollectField(desired, live, k, path, at);
        FieldProgress(desired, live, ordered, i, at, here);
        i := i + 1;
        if |entries| >= MAX_DIFFERENCES { return; }
      }
    }

    method CollectField(desired: Json, live: Json, k: string, path: string, ghost at: seq<Step>)
      requires desired.Obj? && live.Obj?
      requires path == Render(at)
      requires |entries| <= MAX_DIFFERENCES
      modifies this
      ensures entries == Capped(old(entries) + Displays(FieldDifference(desired, live, k, at)))
      decreases desired, 0, 0
    {
      RenderStep(at, Field(k));
      ghost var found := FieldDifference(desired, live, k, at);
      if k in desired.fields && k in live.fields {
        assert found == Differences(desired.fields[k], live.fields[k], at + [Field(k)]);
        Collect(desired.fields[k], live.fields[k], ChildPath(path, k), at + [Field(k)]);
      } else if Get(desired, k) != Get(live, k) {
        assert found == [at + [Field(k)]];
        AddCapped(ChildPath(path, k), at + [Field(k)]);
      } else {
        assert found == [] && old(entries) + Displays([]) == old(entries);
      }
    }

    method AddCapped(path: string, ghost at: seq<Step>)
      requires path == Render(at) && |entries| <= MAX_DIFFERENCES
      modifies this
      ensures entries == Capped(old(entries) + Displays([at]))
    {
      assert Displays([at]) == [Display(path)];
      if |entries| < MAX_DIFFERENCES { Add(path); }
    }

    method CollectItems(desired: Json, live: Json, path: string, ghost at: seq<Step>)
      requires desired.List? && live.List? && |desired.items| == |live.items|
      requires path == Render(at)
      requires |entries| < MAX_DIFFERENCES
      modifies this
      ensures entries == Capped(old(entries) + Displays(ItemDifferences(desired, live, 0, at)))
      decreases desired, 0
    {
      ghost var before := entries;
      var i := 0;
      while i < |desired.items|
        invariant 0 <= i <= |desired.items|
        invariant |entries| <= MAX_DIFFERENCES
        invariant Capped(before + Displays(ItemDifferences(desired, live, 0, at)))
               == Capped(entries + Displays(ItemDifferences(desired, live, i, at)))
      {
        RenderStep(at, Item(i));
        ghost var here := entries;
        ghost var first := Differences(desired.items[i], live.items[i], at + [Item(i)]);
        Collect(desired.items[i], live.items[i], path + "[" + Decimal(i) + "]", at + [Item(i)]);
        DisplaysConcat(first, ItemDifferences(desired, live, i + 1, at));
        CappedAppend(here, Displays(first), Displays(ItemDifferences(desired, live, i + 1, at)));
        i := i + 1;
        if |entries| >= MAX_DIFFERENCES { return; }
      }
    }
  }

  lemma DisplaysConcat(a: seq<seq<Step>>, b: seq<seq<Step>>)
    ensures Displays(a + b) == Displays(a) + Displays(b)
  {
  }

  lemma FieldProgress(a: Json, b: Json, keys: seq<string>, i: nat, at: seq<Step>, before: seq<string>)
    requires a.Obj? && b.Obj? && i < |keys|
    ensures Capped(before + Displays(FieldDifferences(a, b, keys[i..], at)))
         == Capped(Capped(before + Displays(FieldDifference(a, b, keys[i], at)))
             + Displays(FieldDifferences(a, b, keys[i + 1..], at)))
  {
    var first, rest := FieldDifference(a, b, keys[i], at), FieldDifferences(a, b, keys[i + 1..], at);
    assert keys[i..][1..] == keys[i + 1..];
    assert FieldDifferences(a, b, keys[i..], at) == first + rest;
    DisplaysConcat(first, rest);
    CappedAppend(before, Displays(first), Displays(rest));
  }

  /** Capping after each part is capping once at the end. */
  lemma CappedAppend(before: seq<string>, first: seq<string>, rest: seq<string>)
    ensures Capped(Capped(before + first) + rest) == Capped(before + (first + rest))
  {
    assert before + (first + rest) == before + first + rest;
  }

  /** compareFlowSnapshots: the reported list is empty exactly when the two snapshots are equivalent
      as decoded trees, and every entry names a location where their normal forms disagree. */
  method CompareFlowSnapshots(desired: Json, live: Json, ignored: seq<string>) returns (differences: seq<string>)
    requires Decoded(desired) && Decoded(live)
    ensures differences == [] <==> Equivalent(desired, live, "", ignored)
    ensures differences == [] <==> NormalizeSnapshot(desired, ignored) == NormalizeSnapshot(live, ignored)
    ensures |differences| <= MAX_DIFFERENCES
    ensures forall d :: d in differences ==>
              NamesDisagreement(d, NormalizeSnapshot(desired, ignored), NormalizeSnapshot(live, ignored))
  {
    var a := NormalizeFlowSnapshot(desired, ignored);
    var b := NormalizeFlowSnapshot(live, ignored);
    var log := new DifferenceLog();
    log.Collect(a, b, "", []);
    differences := log.entries;
    ghost var found := Differences(a, b, []);
    assert differences == Capped(Displays(found)) by { assert [] + Displays(found) == Displays(found); }
    SnapshotHasNoNulls(desired, ignored);
    SnapshotHasNoNulls(live, ignored);
    CappedReportIsFaithful(a, b);
    SnapshotSees(desired, live, ignored);
  }

  /** The cap hides some differences, never all of them, and invents none. */
  lemma CappedReportIsFaithful(a: Json, b: Json)
    requires NoNullFields(a) && NoNullFields(b)
    ensures var shown := Capped(Displays(Differences(a, b, [])));
            && (shown == [] <==> a == b)
            && forall d :: d in shown ==> NamesDisagreement(d, a, b)
  {
    var found := Differences(a, b, []);
    var shown := Capped(Displays(found));
    NoDifferencesIffEqual(a, b);
    DifferencesExact(a, b, []);
    forall d | d in shown
      ensures NamesDisagreement(d, a, b)
    {
      var i :| 0 <= i < |shown| && shown[i] == d;
      assert d == Displays(found)[i];
      assert found[i] in found && found[i][0..] == found[i];
    }
  }

  lemma SnapshotHasNoNulls(v: Json, ignored: seq<string>)
    requires Decoded(v)
    ensures NoNullFields(NormalizeSnapshot(v, ignored))
  {
    if Normalize(v, "", ignored).Some? {
      NormalFormClean(v, "", ignored);
      CleanHasNoNulls(NormalizeSnapshot(v, ignored));
    }
  }
}
