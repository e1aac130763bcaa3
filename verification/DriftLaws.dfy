/** Laws of the drift normaliser: it is idempotent, produces clean trees, and does not see
    irrelevant fields, defaulted fields, or the order of identifiable lists. */
module DriftLaws {
  import opened Text
  import opened Drift

  // --- shape of normal forms -------------------------------------------------------------------

  /** No nulls, no raw number literals and nothing empty, at any depth. */
  ghost predicate Clean(v: Json) {
    match v
    case Null => false
    case Num(_, _) => false
    case Str(s) => s != ""
    case List(items) => items != [] && forall i :: 0 <= i < |items| ==> Clean(items[i])
    case Obj(fields) => fields != map[] && forall k :: k in fields ==> Clean(fields[k])
    case _ => true
  }

  lemma {:induction false} ItemsClean(items: seq<Json>, path: string, ignored: seq<string>)
    requires forall i :: 0 <= i < |items| ==> Decoded(items[i])
    ensures forall i :: 0 <= i < |NormalizeItems(items, path, ignored)| ==>
              Clean(NormalizeItems(items, path, ignored)[i])
    decreases items, 0
  {
    if items != [] {
      if Normalize(items[0], path, ignored).Some? { NormalFormClean(items[0], path, ignored); }
      ItemsClean(items[1..], path, ignored);
    }
  }

  lemma OrderedIsPermutation(items: seq<Json>)
    ensures multiset(Ordered(items)) == multiset(items)
    ensures |Ordered(items)| == |items|
    ensures forall x :: x in Ordered(items) <==> x in items
  {
    StableSortCorrect(items);
    assert |multiset(Ordered(items))| == |multiset(items)|;
    forall x ensures x in Ordered(items) <==> x in items {
      assert x in Ordered(items) <==> x in multiset(Ordered(items));
      assert x in items <==> x in multiset(items);
    }
  }

  lemma {:induction false} NormalFormClean(v: Json, path: string, ignored: seq<string>)
    requires Decoded(v)
    requires Normalize(v, path, ignored).Some?
    ensures Clean(Normalize(v, path, ignored).value)
    decreases v, 1
  {
    match v
    case Obj(fields) =>
      var kept := NormalizeFields(v, path, ignored);
      forall k | k in kept ensures Clean(kept[k]) { NormalFormClean(fields[k], ChildPath(path, k), ignored); }
    case List(items) =>
      var kept := NormalizeItems(items, path, ignored);
      ItemsClean(items, path, ignored);
      OrderedIsPermutation(kept);
      forall i | 0 <= i < |Ordered(kept)| ensures Clean(Ordered(kept)[i]) {
        assert Ordered(kept)[i] in kept;
      }
    case _ =>
  }

  // --- idempotence -----------------------------------------------------------------------------

  /** A child that survived the default test still survives it in its normal form, although the
      test reads raw children. */
  lemma DefaultTestIsStable(key: string, v: Json, path: string, ignored: seq<string>)
    requires Decoded(v) && !IsDefaulted(key, v) && Normalize(v, path, ignored).Some?
    ensures !IsDefaulted(key, Normalize(v, path, ignored).value)
  {
    var n := Normalize(v, path, ignored).value;
    if v.Num? && v.float.None? && DefaultOf(key).Some? {
      assert n == Str(v.text) && !UnlikeNumber(v.text);
    }
  }

  lemma {:induction false} FixedItems(items: seq<Json>, path: string, ignored: seq<string>)
    requires forall i :: 0 <= i < |items| ==> Normalize(items[i], path, ignored) == Some(items[i])
    ensures NormalizeItems(items, path, ignored) == items
  {
    if items != [] {
      assert items == [items[0]] + items[1..];
      FixedItems(items[1..], path, ignored);
    }
  }

  lemma {:induction false} ItemsAreFixed(items: seq<Json>, path: string, ignored: seq<string>)
    requires forall i :: 0 <= i < |items| ==> Decoded(items[i])
    ensures forall x :: x in NormalizeItems(items, path, ignored) ==> Normalize(x, path, ignored) == Some(x)
    decreases items, 0
  {
    if items != [] {
      if Normalize(items[0], path, ignored).Some? { NormalizeIdempotent(items[0], path, ignored); }
      ItemsAreFixed(items[1..], path, ignored);
    }
  }

  lemma OrderedIdempotent(items: seq<Json>)
    ensures Ordered(Ordered(items)) == Ordered(items)
  {
    if Identifiable(items) {
      StableSortCorrect(items);
      SortOfSorted(StableSort(items));
    }
  }

  /** Normalising a normal form changes nothing, for every decoded tree, path and ignore list. */
  lemma {:induction false} NormalizeIdempotent(v: Json, path: string, ignored: seq<string>)
    requires Decoded(v)
    requires Normalize(v, path, ignored).Some?
    ensures Normalize(Normalize(v, path, ignored).value, path, ignored) == Normalize(v, path, ignored)
    decreases v, 1
  {
    match v
    case Obj(fields) =>
      var kept := NormalizeFields(v, path, ignored);
      forall k | k in kept
        ensures !Dropped(path, k, kept[k], ignored)
        ensures Normalize(kept[k], ChildPath(path, k), ignored) == Some(kept[k])
      {
        DefaultTestIsStable(k, fields[k], ChildPath(path, k), ignored);
        NormalizeIdempotent(fields[k], ChildPath(path, k), ignored);
      }
      assert NormalizeFields(Obj(kept), path, ignored) == kept;
    case List(items) =>
      var kept := NormalizeItems(items, path, ignored);
      ItemsAreFixed(items, path, ignored);
      OrderedIsPermutation(kept);
      forall i | 0 <= i < |Ordered(kept)| ensures Normalize(Ordered(kept)[i], path, ignored) == Some(Ordered(kept)[i]) {
        assert Ordered(kept)[i] in kept;
      }
      FixedItems(Ordered(kept), path, ignored);
      OrderedIdempotent(kept);
    case _ =>
  }

  lemma SnapshotIdempotent(v: Json, ignored: seq<string>)
    requires Decoded(v)
    ensures NormalizeSnapshot(NormalizeSnapshot(v, ignored), ignored) == NormalizeSnapshot(v, ignored)
  {
    if Normalize(v, "", ignored).Some? {
      NormalizeIdempotent(v, "", ignored);
    } else {
      assert NormalizeFields(Obj(map[]), "", ignored) == map[];
    }
  }

  // --- what normalisation cannot see -----------------------------------------------------------

  ghost predicate Vanishes(o: Json, k: string, path: string, ignored: seq<string>)
    requires o.Obj?
  {
    k in o.fields ==> Dropped(path, k, o.fields[k], ignored)
  }

  ghost predicate DistinctIdentities(items: seq<Json>) {
    && (forall i :: 0 <= i < |items| ==> Identity(items[i]) != "")
    && (forall i, j :: 0 <= i < j < |items| ==> Identity(items[i]) != Identity(items[j]))
  }

  /** Two trees differ only in ways drift detection promises not to report: fields that are
      volatile, ignored or at their default may be added, removed or changed, at any depth, and
      lists whose kept elements have distinct identities may be permuted. */
  ghost predicate Similar(a: Json, b: Json, path: string, ignored: seq<string>)
    decreases a, 1
  {
    || a == b
    || (a.Obj? && b.Obj? && forall k :: k in a.fields.Keys + b.fields.Keys ==>
          || (Vanishes(a, k, path, ignored) && Vanishes(b, k, path, ignored))
          || (&& k in a.fields && k in b.fields
              && !Dropped(path, k, a.fields[k], ignored) && !Dropped(path, k, b.fields[k], ignored)
              && Similar(a.fields[k], b.fields[k], ChildPath(path, k), ignored)))
    || (a.List? && b.List? && |a.items| == |b.items|
        && forall i :: 0 <= i < |a.items| ==> Similar(a.items[i], b.items[i], path, ignored))
    || (a.List? && b.List? && DistinctIdentities(NormalizeItems(a.items, path, ignored))
        && Shuffled(a.items, b.items, path, ignored))
  }

  /** `ys` is a permutation of `xs`, up to similarity of the elements. */
  ghost predicate Shuffled(xs: seq<Json>, ys: seq<Json>, path: string, ignored: seq<string>)
    decreases xs, 0
  {
    if xs == [] then ys == []
    else exists j :: 0 <= j < |ys| && Similar(xs[0], ys[j], path, ignored)
                     && Shuffled(xs[1..], Without(ys, j), path, ignored)
  }

  ghost function Without(ys: seq<Json>, j: nat): (r: seq<Json>)
    requires j < |ys|
  {
    ys[..j] + ys[j + 1..]
  }

  lemma {:induction false} NormalizeItemsConcat(a: seq<Json>, b: seq<Json>, path: string, ignored: seq<string>)
    ensures NormalizeItems(a + b, path, ignored) == NormalizeItems(a, path, ignored) + NormalizeItems(b, path, ignored)
  {
    if a == [] {
      assert a + b == b;
    } else {
      NormalizeItemsConcat(a[1..], b, path, ignored);
      assert (a + b)[0] == a[0] && (a + b)[1..] == a[1..] + b;
      ConcatAssociates(Kept(Normalize(a[0], path, ignored)), NormalizeItems(a[1..], path, ignored),
          NormalizeItems(b, path, ignored));
    }
  }

  lemma ConcatAssociates(a: seq<Json>, b: seq<Json>, c: seq<Json>)
    ensures a + (b + c) == (a + b) + c
  {
  }

  lemma ItemsGrow(items: seq<Json>, i: nat, path: string, ignored: seq<string>)
    requires i < |items|
    ensures NormalizeItems(items[..i + 1], path, ignored)
         == NormalizeItems(items[..i], path, ignored) + Kept(Normalize(items[i], path, ignored))
  {
    assert items[..i + 1] == items[..i] + [items[i]];
    NormalizeItemsConcat(items[..i], [items[i]], path, ignored);
    assert [items[i]][1..] == [];
  }

  lemma RemovingOneItem(ys: seq<Json>, j: nat, path: string, ignored: seq<string>)
    requires j < |ys|
    ensures multiset(NormalizeItems(ys, path, ignored))
         == multiset(Kept(Normalize(ys[j], path, ignored))) + multiset(NormalizeItems(Without(ys, j), path, ignored))
  {
    var before, after := ys[..j], ys[j..];
    assert ys == before + after && after[0] == ys[j] && after[1..] == ys[j + 1..];
    NormalizeItemsConcat(before, after, path, ignored);
    NormalizeItemsConcat(before, ys[j + 1..], path, ignored);
    MovedToFront(NormalizeItems(before, path, ignored), Kept(Normalize(ys[j], path, ignored)),
        NormalizeItems(ys[j + 1..], path, ignored));
  }

  lemma MovedToFront(a: seq<Json>, x: seq<Json>, b: seq<Json>)
    ensures multiset(a + (x + b)) == multiset(x) + multiset(a + b)
  {
  }

  lemma {:induction false} ShuffledItems(xs: seq<Json>, ys: seq<Json>, path: string, ignored: seq<string>)
    requires Shuffled(xs, ys, path, ignored)
    ensures multiset(NormalizeItems(xs, path, ignored)) == multiset(NormalizeItems(ys, path, ignored))
    decreases xs, 0
  {
    if xs != [] {
      var j :| 0 <= j < |ys| && Similar(xs[0], ys[j], path, ignored)
               && Shuffled(xs[1..], Without(ys, j), path, ignored);
      NormalizeBlind(xs[0], ys[j], path, ignored);
      ShuffledItems(xs[1..], Without(ys, j), path, ignored);
      RemovingOneItem(ys, j, path, ignored);
      FirstItem(xs, path, ignored);
    }
  }

  lemma FirstItem(xs: seq<Json>, path: string, ignored: seq<string>)
    requires xs != []
    ensures multiset(NormalizeItems(xs, path, ignored))
         == multiset(Kept(Normalize(xs[0], path, ignored))) + multiset(NormalizeItems(xs[1..], path, ignored))
  {
    assert NormalizeItems(xs, path, ignored)
           == Kept(Normalize(xs[0], path, ignored)) + NormalizeItems(xs[1..], path, ignored);
  }

  lemma {:induction false} PointwiseItems(xs: seq<Json>, ys: seq<Json>, path: string, ignored: seq<string>)
    requires |xs| == |ys| && forall i :: 0 <= i < |xs| ==> Similar(xs[i], ys[i], path, ignored)
    ensures NormalizeItems(xs, path, ignored) == NormalizeItems(ys, path, ignored)
    decreases xs, 0
  {
    if xs != [] {
      NormalizeBlind(xs[0], ys[0], path, ignored);
      PointwiseItems(xs[1..], ys[1..], path, ignored);
    }
  }

  lemma {:induction false} CarryingCounts(items: seq<Json>, id: string, x: Json)
    ensures multiset(Carrying(items, id))[x] == if Identity(x) == id then multiset(items)[x] else 0
  {
    if items != [] {
      CarryingCounts(items[1..], id, x);
      assert items == [items[0]] + items[1..];
    }
  }

  lemma {:induction false} CarryingInside(items: seq<Json>, id: string)
    ensures forall x :: x in Carrying(items, id) ==> x in items && Identity(x) == id
  {
    if items != [] {
      CarryingInside(items[1..], id);
      assert items == [items[0]] + items[1..];
    }
  }

  lemma {:induction false} DistinctCarriesOne(items: seq<Json>, id: string)
    requires DistinctIdentities(items)
    ensures |Carrying(items, id)| <= 1
  {
    if items != [] {
      DistinctCarriesOne(items[1..], id);
      CarryingInside(items[1..], id);
      assert Carrying(items[1..], id) == [] || Carrying(items[1..], id)[0] in items[1..];
    }
  }

  lemma SingletonsAlike(a: seq<Json>, b: seq<Json>)
    requires multiset(a) == multiset(b) && |a| <= 1
    ensures a == b
  {
    assert |a| == |multiset(a)| == |multiset(b)| == |b|;
    if |a| == 1 { assert b[0] in multiset(a); }
  }

  lemma SameCarriers(a: seq<Json>, b: seq<Json>, id: string)
    requires DistinctIdentities(a) && multiset(a) == multiset(b)
    ensures Carrying(a, id) == Carrying(b, id)
  {
    DistinctCarriesOne(a, id);
    forall x ensures multiset(Carrying(a, id))[x] == multiset(Carrying(b, id))[x] {
      CarryingCounts(a, id, x);
      CarryingCounts(b, id, x);
    }
    SingletonsAlike(Carrying(a, id), Carrying(b, id));
  }

  lemma IdentifiableAlike(a: seq<Json>, b: seq<Json>)
    requires DistinctIdentities(a) && multiset(a) == multiset(b)
    ensures Identifiable(a) == Identifiable(b) && |a| == |b|
  {
    assert |a| == |multiset(a)| == |multiset(b)| == |b|;
    forall i | 0 <= i < |b| ensures Identity(b[i]) != "" { assert b[i] in multiset(a); }
  }

  lemma PermutedDistinct(a: seq<Json>, b: seq<Json>)
    requires DistinctIdentities(a) && multiset(a) == multiset(b)
    ensures Ordered(a) == Ordered(b)
  {
    IdentifiableAlike(a, b);
    if Identifiable(a) {
      forall id ensures Carrying(a, id) == Carrying(b, id) { SameCarriers(a, b, id); }
      SortsAlike(a, b);
    } else {
      SingletonsAlike(a, b);
    }
  }

  /** Similar trees have the same normal form: irrelevant, defaulted and ignored fields and the
      order of identifiable lists never show up as drift. */
  lemma {:induction false} NormalizeBlind(a: Json, b: Json, path: string, ignored: seq<string>)
    requires Similar(a, b, path, ignored)
    ensures Normalize(a, path, ignored) == Normalize(b, path, ignored)
    decreases a, 1
  {
    if a == b {
    } else if a.Obj? && b.Obj? {
      forall k | k in a.fields.Keys + b.fields.Keys
        ensures k in NormalizeFields(a, path, ignored) <==> k in NormalizeFields(b, path, ignored)
        ensures k in NormalizeFields(a, path, ignored) ==>
                  NormalizeFields(a, path, ignored)[k] == NormalizeFields(b, path, ignored)[k]
      {
        if !(Vanishes(a, k, path, ignored) && Vanishes(b, k, path, ignored)) {
          NormalizeBlind(a.fields[k], b.fields[k], ChildPath(path, k), ignored);
        }
      }
      assert NormalizeFields(a, path, ignored) == NormalizeFields(b, path, ignored);
    } else if |a.items| == |b.items| && forall i :: 0 <= i < |a.items| ==>
      Similar(a.items[i], b.items[i], path, ignored) {
      PointwiseItems(a.items, b.items, path, ignored);
    } else {
      ShuffledItems(a.items, b.items, path, ignored);
      var na, nb := NormalizeItems(a.items, path, ignored), NormalizeItems(b.items, path, ignored);
      assert |na| == |multiset(na)| == |multiset(nb)| == |nb|;
      PermutedDistinct(na, nb);
    }
  }

  // --- instances: one field, and renaming the deployed flow ------------------------------------

  /** Setting, changing or removing one volatile or ignored field of an object is invisible. */
  lemma IrrelevantField(o: Json, k: string, v: Json, path: string, ignored: seq<string>)
    requires o.Obj? && (IsVolatile(path, k) || IsIgnored(ChildPath(path, k), ignored))
    ensures Normalize(Obj(o.fields[k := v]), path, ignored) == Normalize(o, path, ignored)
    ensures Normalize(Obj(o.fields - {k}), path, ignored) == Normalize(o, path, ignored)
  {
    NormalizeBlind(Obj(o.fields[k := v]), o, path, ignored);
    NormalizeBlind(Obj(o.fields - {k}), o, path, ignored);
  }

  /** Adding an absent field at its exact default is invisible; so is removing it again. */
  lemma DefaultedField(o: Json, k: string, v: Json, path: string, ignored: seq<string>)
    requires o.Obj? && k !in o.fields && IsDefaulted(k, v)
    ensures Normalize(Obj(o.fields[k := v]), path, ignored) == Normalize(o, path, ignored)
  {
    NormalizeBlind(Obj(o.fields[k := v]), o, path, ignored);
  }

  datatype Canonical = Rejected(reason: string) | Canonical(target: Json, hashed: Json)

  /** canonicalFlowSnapshot on an already decoded document: `hashed` is the tree whose digest
      identifies the artifact, `target` the tree sent to NiFi. */
  method CanonicalFlowSnapshot(document: Json, targetName: string) returns (r: Canonical)
    ensures r == CanonicalForm(document, targetName)
  {
    if !document.Obj? { return Rejected("snapshot is not valid JSON"); }
    var decoded := document.fields;
    if "versionedFlowSnapshot" in decoded && decoded["versionedFlowSnapshot"].Obj? {
      decoded := decoded["versionedFlowSnapshot"].fields;
    }
    if "flowContents" !in decoded || !decoded["flowContents"].Obj? {
      return Rejected("snapshot must contain an object field named flowContents");
    }
    var hashed := Obj(decoded);
    if targetName != "" {
      decoded := decoded["flowContents" := Obj(decoded["flowContents"].fields["name" := Str(targetName)])];
    }
    r := Canonical(Obj(decoded), hashed);
  }

  function Unwrapped(document: Json): (r: map<string, Json>)
    requires document.Obj?
  {
    if "versionedFlowSnapshot" in document.fields && document.fields["versionedFlowSnapshot"].Obj?
    then document.fields["versionedFlowSnapshot"].fields else document.fields
  }

  function CanonicalForm(document: Json, targetName: string): (r: Canonical) {
    if !document.Obj? then Rejected("snapshot is not valid JSON")
    else
      var flow := Unwrapped(document);
      if "flowContents" !in flow || !flow["flowContents"].Obj?
      then Rejected("snapshot must contain an object field named flowContents")
      else if targetName == "" then Canonical(Obj(flow), Obj(flow))
      else Canonical(Obj(flow["flowContents" := Obj(flow["flowContents"].fields["name" := Str(targetName)])]),
          Obj(flow))
  }

  /** A snapshot is accepted exactly if it has flow contents. What is sent is that snapshot with its flow
      named after the target, what is hashed is that snapshot, and wrapping it as a registry exports it
      makes no difference. */
  lemma CanonicalIff(snapshot: Json, targetName: string)
    requires snapshot.Obj?
    requires "versionedFlowSnapshot" in snapshot.fields ==> !snapshot.fields["versionedFlowSnapshot"].Obj?
    ensures var c := CanonicalForm(snapshot, targetName);
            && c == CanonicalForm(Obj(map["versionedFlowSnapshot" := snapshot]), targetName)
            && (c.Canonical? <==> "flowContents" in snapshot.fields && snapshot.fields["flowContents"].Obj?)
            && (c.Canonical? ==>
              && c.hashed == snapshot && c.target.Obj? && c.target.fields.Keys == snapshot.fields.Keys
              && c.target.fields - {"flowContents"} == snapshot.fields - {"flowContents"}
              && c.target.fields["flowContents"].Obj?
              && var before, after := snapshot.fields["flowContents"].fields, c.target.fields["flowContents"].fields;
                 && before - {"name"} == after - {"name"}
                 && (if targetName == "" then after == before else "name" in after && after["name"] == Str(targetName)))
  {
    var wrapped := Obj(map["versionedFlowSnapshot" := snapshot]);
    assert Unwrapped(wrapped) == snapshot.fields == Unwrapped(snapshot);
  }

  /** The artifact digest does not depend on the target name, and renaming the target never
      shows up as drift. */
  lemma RenamingIsInvisible(document: Json, name: string, other: string, ignored: seq<string>)
    ensures var a, b := CanonicalForm(document, name), CanonicalForm(document, other);
            a.Canonical? == b.Canonical?
            && (a.Canonical? ==> a.hashed == b.hashed
                                 && NormalizeSnapshot(a.target, ignored) == NormalizeSnapshot(b.target, ignored)
                                 && NormalizeSnapshot(a.target, ignored) == NormalizeSnapshot(a.hashed, ignored))
  {
    var a, b := CanonicalForm(document, name), CanonicalForm(document, other);
    if a.Canonical? {
      RenamedTarget(a.hashed.fields, name, ignored);
      RenamedTarget(a.hashed.fields, other, ignored);
    }
  }

  lemma RenamedTarget(flow: map<string, Json>, name: string, ignored: seq<string>)
    requires "flowContents" in flow && flow["flowContents"].Obj?
    ensures NormalizeSnapshot(Obj(flow["flowContents" := Obj(flow["flowContents"].fields["name" := Str(name)])]),
        ignored)
         == NormalizeSnapshot(Obj(flow), ignored)
  {
    var contents := flow["flowContents"];
    var renamed := Obj(contents.fields["name" := Str(name)]);
    var a, b := Obj(flow["flowContents" := renamed]), Obj(flow);
    assert ChildPath("", "flowContents") == "flowContents";
    assert Similar(renamed, contents, "flowContents", ignored);
    assert Dropped("", "flowContents", renamed, ignored) == Dropped("", "flowContents", contents, ignored);
    forall k | k in flow && k != "flowContents"
      ensures (Vanishes(a, k, "", ignored) && Vanishes(b, k, "", ignored))
           || (!Dropped("", k, flow[k], ignored) && Similar(a.fields[k], b.fields[k], ChildPath("", k), ignored))
    {
    }
    assert Similar(a, b, "", ignored);
    NormalizeBlind(a, b, "", ignored);
  }
}
