/** What drift detection sees: two snapshots have one normal form if and only if they are
    equivalent, a relation on the decoded trees themselves that does not mention normalisation. */
module DriftSeen {
  import opened Text
  import opened Drift
  import opened DriftLaws

  // --- the relation on decoded trees -----------------------------------------------------------

  /** Nothing of the value is kept: it is null, an empty string, or holds only such values. */
  predicate Empty(v: Json, path: string, ignored: seq<string>) {
    match v
    case Null => true
    case Str(s) => s == ""
    case List(items) => forall i :: 0 <= i < |items| ==> Empty(items[i], path, ignored)
    case Obj(fields) =>
      forall k :: k in fields ==> Dropped(path, k, fields[k], ignored) || Empty(fields[k], ChildPath(path, k), ignored)
    case _ => false
  }

  /** The field is neither volatile, ignored, at its default, nor empty. */
  predicate Shows(o: Json, k: string, path: string, ignored: seq<string>)
    requires o.Obj?
  {
    k in o.fields && !Dropped(path, k, o.fields[k], ignored) && !Empty(o.fields[k], ChildPath(path, k), ignored)
  }

  /** The text of a string, or of a number too large for a float64. */
  function TextOf(v: Json): (r: Option<string>) {
    if v.Str? then Some(v.s) else if v.Num? && v.float.None? then Some(v.text) else None
  }

  function NumberOf(v: Json): (r: Option<real>) {
    if v.Num? then v.float else if v.Float? then Some(v.value) else None
  }

  /** The same boolean, the same text, or literals of the same number. */
  predicate SameScalar(a: Json, b: Json) {
    || (a.Bool? && b.Bool? && a.b == b.b)
    || (TextOf(a).Some? && TextOf(a) == TextOf(b))
    || (NumberOf(a).Some? && NumberOf(a) == NumberOf(b))
  }

  /** The elements of a list that are not empty, in their order. */
  function Remaining(items: seq<Json>, path: string, ignored: seq<string>): (r: seq<Json>)
    ensures forall x :: x in r ==> x in items && !Empty(x, path, ignored)
  {
    if items == [] then []
    else (if Empty(items[0], path, ignored) then [] else [items[0]]) + Remaining(items[1..], path, ignored)
  }

  /** What an element is ordered by: its id or else its name, where those are kept as text. The
      instance identifier is never kept, so it never orders a list. */
  function Bears(v: Json, path: string, ignored: seq<string>): (r: string) {
    if !v.Obj? then ""
    else if BearsField(v, "id", path, ignored) != "" then BearsField(v, "id", path, ignored)
    else BearsField(v, "name", path, ignored)
  }

  function BearsField(o: Json, key: string, path: string, ignored: seq<string>): (r: string)
    requires o.Obj?
  {
    if Shows(o, key, path, ignored) && TextOf(o.fields[key]).Some? && TextOf(o.fields[key]).value != ""
    then key + ":" + TextOf(o.fields[key]).value else ""
  }

  predicate AllBear(items: seq<Json>, path: string, ignored: seq<string>) {
    |items| >= 2 && forall i :: 0 <= i < |items| ==> Bears(items[i], path, ignored) != ""
  }

  /** The elements ordered by one id or name, in their order. */
  ghost function Bearing(items: seq<Json>, id: string, path: string, ignored: seq<string>): (r: seq<Json>)
    ensures forall x :: x in r ==> x in items
  {
    if items == [] then []
    else (if Bears(items[0], path, ignored) == id then [items[0]] else []) + Bearing(items[1..], id, path, ignored)
  }

  /** Two trees are equivalent: both empty, the same scalar, objects that show the same fields with
      equivalent values, or lists whose remaining elements are pairwise equivalent, in order, or id
      by id when every one of them bears an id or a name. */
  ghost predicate Equivalent(a: Json, b: Json, path: string, ignored: seq<string>)
    decreases a, 1
  {
    if Empty(a, path, ignored) || Empty(b, path, ignored) then Empty(a, path, ignored) && Empty(b, path, ignored)
    else if a.Obj? && b.Obj? then
      forall k :: k in a.fields.Keys + b.fields.Keys ==>
        && (Shows(a, k, path, ignored) <==> Shows(b, k, path, ignored))
        && (Shows(a, k, path, ignored) ==> Equivalent(a.fields[k], b.fields[k], ChildPath(path, k), ignored))
    else if a.List? && b.List? then
      var xs, ys := Remaining(a.items, path, ignored), Remaining(b.items, path, ignored);
      if AllBear(xs, path, ignored) && AllBear(ys, path, ignored)
      then forall id :: Alike(a, Bearing(xs, id, path, ignored), Bearing(ys, id, path, ignored), path, ignored)
      else Alike(a, xs, ys, path, ignored)
    else SameScalar(a, b)
  }

  /** Pairwise equivalent; the elements of `xs` are those of the list `of`. */
  ghost predicate Alike(of: Json, xs: seq<Json>, ys: seq<Json>, path: string, ignored: seq<string>)
    requires of.List? && forall x :: x in xs ==> x in of.items
    decreases of, 0
  {
    |xs| == |ys| && forall i :: 0 <= i < |xs| ==>
      assert xs[i] in of.items; Equivalent(xs[i], ys[i], path, ignored)
  }

  // --- normal forms against the trees ----------------------------------------------------------

  /** Exactly the empty values have no normal form. */
  lemma {:induction false} EmptyIff(v: Json, path: string, ignored: seq<string>)
    ensures Normalize(v, path, ignored).None? <==> Empty(v, path, ignored)
    decreases v, 1
  {
    match v
    case Obj(fields) =>
      forall k | k in fields
        ensures Normalize(fields[k], ChildPath(path, k), ignored).None?
                <==> Empty(fields[k], ChildPath(path, k), ignored)
      {
        EmptyIff(fields[k], ChildPath(path, k), ignored);
      }
      var kept := NormalizeFields(v, path, ignored);
      if Empty(v, path, ignored) {
        assert kept == map[];
      } else {
        var k :| k in fields && !Dropped(path, k, fields[k], ignored)
          && !Empty(fields[k], ChildPath(path, k), ignored);
        assert k in kept;
      }
    case List(items) =>
      ItemsEmptyIff(items, path, ignored);
      OrderedIsPermutation(NormalizeItems(items, path, ignored));
    case _ =>
  }

  lemma {:induction false} ItemsEmptyIff(items: seq<Json>, path: string, ignored: seq<string>)
    ensures NormalizeItems(items, path, ignored) == []
            <==> forall i :: 0 <= i < |items| ==> Empty(items[i], path, ignored)
    decreases items, 0
  {
    if items != [] {
      EmptyIff(items[0], path, ignored);
      ItemsEmptyIff(items[1..], path, ignored);
      assert forall i :: 1 <= i < |items| ==> items[i] == items[1..][i - 1];
    }
  }

  /** `ns` are the normal forms of `xs`. */
  ghost predicate NormalOf(xs: seq<Json>, ns: seq<Json>, path: string, ignored: seq<string>) {
    |xs| == |ns| && forall i :: 0 <= i < |xs| ==> Normalize(xs[i], path, ignored) == Some(ns[i])
  }

  lemma {:induction false} RemainingNormal(items: seq<Json>, path: string, ignored: seq<string>)
    ensures NormalOf(Remaining(items, path, ignored), NormalizeItems(items, path, ignored), path, ignored)
  {
    if items != [] {
      EmptyIff(items[0], path, ignored);
      RemainingNormal(items[1..], path, ignored);
    }
  }

  /** The identity of a normal form can be read off the tree. */
  lemma BearsIdentity(v: Json, path: string, ignored: seq<string>)
    requires Normalize(v, path, ignored).Some?
    ensures Identity(Normalize(v, path, ignored).value) == Bears(v, path, ignored)
  {
    if v.Obj? {
      assert "identifier" !in NormalizeFields(v, path, ignored);
      BearsFieldIdentity(v, "id", path, ignored);
      BearsFieldIdentity(v, "name", path, ignored);
    }
  }

  lemma BearsFieldIdentity(o: Json, key: string, path: string, ignored: seq<string>)
    requires o.Obj?
    ensures FieldIdentity(NormalizeFields(o, path, ignored), key) == BearsField(o, key, path, ignored)
  {
    if key in o.fields {
      EmptyIff(o.fields[key], ChildPath(path, key), ignored);
    }
  }

  lemma NormalCons(x: Json, n: Json, xs: seq<Json>, ns: seq<Json>, path: string, ignored: seq<string>)
    requires NormalOf(xs, ns, path, ignored) && Normalize(x, path, ignored) == Some(n)
    ensures NormalOf([x] + xs, [n] + ns, path, ignored)
  {
  }

  lemma {:induction false} BearingNormal(xs: seq<Json>, ns: seq<Json>, id: string, path: string, ignored: seq<string>)
    requires NormalOf(xs, ns, path, ignored)
    ensures NormalOf(Bearing(xs, id, path, ignored), Carrying(ns, id), path, ignored)
  {
    if xs != [] {
      BearsIdentity(xs[0], path, ignored);
      BearingNormal(xs[1..], ns[1..], id, path, ignored);
      var bearing, carrying := Bearing(xs[1..], id, path, ignored), Carrying(ns[1..], id);
      if Identity(ns[0]) == id {
        NormalCons(xs[0], ns[0], bearing, carrying, path, ignored);
        assert Bearing(xs, id, path, ignored) == [xs[0]] + bearing;
      } else {
        assert Bearing(xs, id, path, ignored) == bearing;
      }
    }
  }

  lemma AllBearNormal(xs: seq<Json>, ns: seq<Json>, path: string, ignored: seq<string>)
    requires NormalOf(xs, ns, path, ignored)
    ensures AllBear(xs, path, ignored) <==> Identifiable(ns)
  {
    forall i | 0 <= i < |xs| ensures Bears(xs[i], path, ignored) == Identity(ns[i]) {
      BearsIdentity(xs[i], path, ignored);
    }
  }

  // --- the equivalence -------------------------------------------------------------------------

  /** Two trees have the same normal form, or both none, if and only if they are equivalent: what is
      not irrelevant is seen, and what is irrelevant is not. */
  lemma {:induction false} NormalizeSees(a: Json, b: Json, path: string, ignored: seq<string>)
    ensures Normalize(a, path, ignored) == Normalize(b, path, ignored) <==> Equivalent(a, b, path, ignored)
    decreases a, 1
  {
    EmptyIff(a, path, ignored);
    EmptyIff(b, path, ignored);
    if Empty(a, path, ignored) || Empty(b, path, ignored) {
    } else if a.Obj? && b.Obj? {
      FieldsSeen(a, b, path, ignored);
    } else if a.List? && b.List? {
      ItemsSeen(a, b, path, ignored);
    }
  }

  lemma {:induction false} FieldsSeen(a: Json, b: Json, path: string, ignored: seq<string>)
    requires a.Obj? && b.Obj? && !Empty(a, path, ignored) && !Empty(b, path, ignored)
    ensures NormalizeFields(a, path, ignored) == NormalizeFields(b, path, ignored)
            <==> Equivalent(a, b, path, ignored)
    decreases a, 0
  {
    var na, nb := NormalizeFields(a, path, ignored), NormalizeFields(b, path, ignored);
    forall k | k in a.fields.Keys + b.fields.Keys
      ensures k in na <==> Shows(a, k, path, ignored)
      ensures k in nb <==> Shows(b, k, path, ignored)
      ensures k in na && k in nb ==>
                (na[k] == nb[k] <==> Equivalent(a.fields[k], b.fields[k], ChildPath(path, k), ignored))
    {
      if k in a.fields { EmptyIff(a.fields[k], ChildPath(path, k), ignored); }
      if k in b.fields { EmptyIff(b.fields[k], ChildPath(path, k), ignored); }
      if k in na && k in nb { NormalizeSees(a.fields[k], b.fields[k], ChildPath(path, k), ignored); }
    }
    assert na.Keys <= a.fields.Keys && nb.Keys <= b.fields.Keys;
    if Equivalent(a, b, path, ignored) {
      assert na.Keys == nb.Keys;
    }
  }

  lemma {:induction false} AlikeSeen(of: Json, xs: seq<Json>, ys: seq<Json>, na: seq<Json>, nb: seq<Json>,
      path: string, ignored: seq<string>)
    requires of.List? && forall x :: x in xs ==> x in of.items
    requires NormalOf(xs, na, path, ignored) && NormalOf(ys, nb, path, ignored)
    ensures na == nb <==> Alike(of, xs, ys, path, ignored)
    decreases of, 0, 0
  {
    if |xs| == |ys| {
      forall i | 0 <= i < |xs| ensures na[i] == nb[i] <==> Equivalent(xs[i], ys[i], path, ignored) {
        assert xs[i] in of.items;
        NormalizeSees(xs[i], ys[i], path, ignored);
      }
    }
  }

  lemma {:induction false} ItemsSeen(a: Json, b: Json, path: string, ignored: seq<string>)
    requires a.List? && b.List? && !Empty(a, path, ignored) && !Empty(b, path, ignored)
    ensures Ordered(NormalizeItems(a.items, path, ignored)) == Ordered(NormalizeItems(b.items, path, ignored))
            <==> Equivalent(a, b, path, ignored)
    decreases a, 0, 1
  {
    var xs, ys := Remaining(a.items, path, ignored), Remaining(b.items, path, ignored);
    var na, nb := NormalizeItems(a.items, path, ignored), NormalizeItems(b.items, path, ignored);
    RemainingNormal(a.items, path, ignored);
    RemainingNormal(b.items, path, ignored);
    AllBearNormal(xs, na, path, ignored);
    AllBearNormal(ys, nb, path, ignored);
    if Identifiable(na) && Identifiable(nb) {
      forall id
        ensures Carrying(na, id) == Carrying(nb, id)
                <==> Alike(a, Bearing(xs, id, path, ignored), Bearing(ys, id, path, ignored), path, ignored)
      {
        BearingNormal(xs, na, id, path, ignored);
        BearingNormal(ys, nb, id, path, ignored);
        AlikeSeen(a, Bearing(xs, id, path, ignored), Bearing(ys, id, path, ignored), Carrying(na, id), Carrying(nb, id),
            path, ignored);
      }
      SortsAlike(na, nb);
    } else {
      AlikeSeen(a, xs, ys, na, nb, path, ignored);
      MixedOrders(na, nb);
    }
  }

  /** Unless both lists are sorted neither can be taken for a sorted one. */
  lemma MixedOrders(na: seq<Json>, nb: seq<Json>)
    requires !(Identifiable(na) && Identifiable(nb))
    ensures Ordered(na) == Ordered(nb) <==> na == nb
  {
    SortKeepsIdentifiable(na);
    SortKeepsIdentifiable(nb);
  }

  lemma SortKeepsIdentifiable(items: seq<Json>)
    ensures Identifiable(items) ==> Identifiable(Ordered(items))
  {
    OrderedIsPermutation(items);
    forall i | 0 <= i < |Ordered(items)| ensures Ordered(items)[i] in items {}
  }

  /** The same for whole snapshots. */
  lemma SnapshotSees(a: Json, b: Json, ignored: seq<string>)
    ensures NormalizeSnapshot(a, ignored) == NormalizeSnapshot(b, ignored) <==> Equivalent(a, b, "", ignored)
  {
    NormalizeSees(a, b, "", ignored);
    SomethingIsKept(a, ignored);
    SomethingIsKept(b, ignored);
  }

  lemma SomethingIsKept(v: Json, ignored: seq<string>)
    ensures Normalize(v, "", ignored) != Some(Obj(map[]))
  {
  }

  // --- single changes --------------------------------------------------------------------------

  /** Setting one field of an object is invisible exactly if the field shows neither before nor
      after, or shows with an equivalent value. */
  lemma ChangedFieldIsSeen(o: Json, k: string, v: Json, path: string, ignored: seq<string>)
    requires o.Obj?
    ensures var c := Obj(o.fields[k := v]);
            Normalize(c, path, ignored) == Normalize(o, path, ignored)
            <==> && (Shows(c, k, path, ignored) <==> Shows(o, k, path, ignored))
                 && (Shows(c, k, path, ignored) ==> Equivalent(v, o.fields[k], ChildPath(path, k), ignored))
  {
    var c := Obj(o.fields[k := v]);
    var nc, no := NormalizeFields(c, path, ignored), NormalizeFields(o, path, ignored);
    EmptyIff(v, ChildPath(path, k), ignored);
    if k in o.fields {
      EmptyIff(o.fields[k], ChildPath(path, k), ignored);
      NormalizeSees(v, o.fields[k], ChildPath(path, k), ignored);
    }
    assert nc - {k} == no - {k};
    assert k in nc <==> Shows(c, k, path, ignored);
    assert k in no <==> Shows(o, k, path, ignored);
    assert nc == no <==> (k in nc <==> k in no) && (k in nc && k in no ==> nc[k] == no[k]) by {
      ByOneKey(nc, no, k);
    }
  }

  lemma ByOneKey(a: map<string, Json>, b: map<string, Json>, k: string)
    requires a - {k} == b - {k}
    ensures a == b <==> (k in a <==> k in b) && (k in a && k in b ==> a[k] == b[k])
  {
    forall j | j != k ensures (j in a <==> j in b) && (j in a && j in b ==> a[j] == b[j]) {
      assert j in a <==> j in a - {k};
      assert j in b <==> j in b - {k};
      assert j in a && j in b ==> (a - {k})[j] == (b - {k})[j];
    }
  }

  /** The keys lead through objects to a value, and no field on the way is dropped. */
  ghost predicate Leads(v: Json, keys: seq<string>, path: string, ignored: seq<string>)
    decreases |keys|
  {
    keys == [] || (&& v.Obj? && keys[0] in v.fields && !Dropped(path, keys[0], v.fields[keys[0]], ignored)
                   && Leads(v.fields[keys[0]], keys[1..], ChildPath(path, keys[0]), ignored))
  }

  ghost function At(v: Json, keys: seq<string>, path: string, ignored: seq<string>): (r: Json)
    requires Leads(v, keys, path, ignored)
    decreases |keys|
  {
    if keys == [] then v else At(v.fields[keys[0]], keys[1..], ChildPath(path, keys[0]), ignored)
  }

  /** The same tree everywhere but at the end of the keys. */
  ghost predicate ChangedAt(a: Json, b: Json, keys: seq<string>)
    decreases |keys|
  {
    keys != [] ==> && a.Obj? && b.Obj? && keys[0] in a.fields && keys[0] in b.fields
                   && a.fields - {keys[0]} == b.fields - {keys[0]}
                   && ChangedAt(a.fields[keys[0]], b.fields[keys[0]], keys[1..])
  }

  /** A kept scalar that changes, however deep, changes the normal form: a number by its value, a
      boolean or a string by itself. */
  lemma {:induction false} ScalarChangeIsSeen(a: Json, b: Json, keys: seq<string>, path: string, ignored: seq<string>)
    requires Leads(a, keys, path, ignored) && Leads(b, keys, path, ignored) && ChangedAt(a, b, keys)
    requires var x, y := At(a, keys, path, ignored), At(b, keys, path, ignored);
             (x.Bool? || x.Num? || (x.Str? && x.s != "")) && !SameScalar(x, y)
    ensures Normalize(a, path, ignored) != Normalize(b, path, ignored)
    decreases |keys|
  {
    if keys == [] {
      NormalizeSees(a, b, path, ignored);
    } else {
      var k := keys[0];
      ScalarChangeIsSeen(a.fields[k], b.fields[k], keys[1..], ChildPath(path, k), ignored);
      var na, nb := NormalizeFields(a, path, ignored), NormalizeFields(b, path, ignored);
      assert k in na <==> Normalize(a.fields[k], ChildPath(path, k), ignored).Some?;
      assert k in nb <==> Normalize(b.fields[k], ChildPath(path, k), ignored).Some?;
      assert na != nb;
    }
  }

  /** A field left at its default is dropped by the literal it is written with, so 1 and 1.0 as
      the concurrent tasks of a processor are reported as drift although they are one number. */
  lemma DefaultByLiteral() returns (a: Json, b: Json)
    ensures a == Obj(map["id" := Str("p"), "maxConcurrentTasks" := Num("1", Some(1.0))])
    ensures b == Obj(map["id" := Str("p"), "maxConcurrentTasks" := Num("1.0", Some(1.0))])
    ensures SameScalar(a.fields["maxConcurrentTasks"], b.fields["maxConcurrentTasks"])
    ensures NormalizeSnapshot(a, []) != NormalizeSnapshot(b, [])
  {
    a := Obj(map["id" := Str("p"), "maxConcurrentTasks" := Num("1", Some(1.0))]);
    b := Obj(map["id" := Str("p"), "maxConcurrentTasks" := Num("1.0", Some(1.0))]);
    var k := "maxConcurrentTasks";
    assert "1.0"[1] == '.';
    assert !IsDefaulted(k, b.fields[k]) && IsDefaulted(k, a.fields[k]);
    assert Shows(b, k, "", []) && !Shows(a, k, "", []);
    assert b.fields == a.fields[k := b.fields[k]];
    ChangedFieldIsSeen(a, k, b.fields[k], "", []);
    SomethingIsKept(a, []);
    SomethingIsKept(b, []);
  }

  /** Registry metadata at the top, the name of the deployed flow, and every identifier,
      coordinate and component state are invisible wherever they stand. */
  lemma MetadataIsInvisible(o: Json, k: string, v: Json, path: string, ignored: seq<string>)
    requires o.Obj?
    requires || k in {"identifier", "instanceIdentifier", "versionedFlowCoordinates", "componentState"}
             || (path == "" && k in {"snapshotMetadata", "flow", "bucket"}) || (path == "flowContents" && k == "name")
    ensures Normalize(Obj(o.fields[k := v]), path, ignored) == Normalize(o, path, ignored)
  {
    IrrelevantField(o, k, v, path, ignored);
  }

  /** Any other name, and any field that is not on that list, shows when nothing ignores it and it is
      not at its default. */
  lemma OtherFieldsShow(o: Json, k: string, path: string, ignored: seq<string>)
    requires o.Obj? && k in o.fields && !Empty(o.fields[k], ChildPath(path, k), ignored)
    requires !IsIgnored(ChildPath(path, k), ignored) && !IsDefaulted(k, o.fields[k])
    requires k !in {"identifier", "instanceIdentifier", "versionedFlowCoordinates", "componentState"}
    requires k in {"snapshotMetadata", "flow", "bucket"} ==> path != ""
    requires k == "name" ==> path != "flowContents"
    ensures k in NormalizeFields(o, path, ignored)
    ensures Normalize(Obj(o.fields - {k}), path, ignored) != Normalize(o, path, ignored)
  {
    EmptyIff(o.fields[k], ChildPath(path, k), ignored);
    assert k !in NormalizeFields(Obj(o.fields - {k}), path, ignored);
  }

  /** The defaults NiFi fills in on export. */
  lemma DefaultsAreInvisible(o: Json, k: string, v: Json, path: string, ignored: seq<string>)
    requires o.Obj? && k !in o.fields
    requires (k, v) in {("defaultFlowFileExpiration", Str("0 sec")),
                        ("defaultBackPressureDataSizeThreshold", Str("1 GB")),
                        ("defaultBackPressureObjectThreshold", Num("10000", Some(10000.0))),
                        ("scheduledState", Str("ENABLED")), ("executionEngine", Str("INHERITED")),
                        ("maxConcurrentTasks", Num("1", Some(1.0))), ("statelessFlowTimeout", Str("1 min")),
                        ("flowFileConcurrency", Str("UNBOUNDED")),
                        ("flowFileOutboundPolicy", Str("STREAM_WHEN_AVAILABLE")),
                        ("flowEncodingVersion", Str("1.0")), ("latest", Bool(false))}
    ensures Normalize(Obj(o.fields[k := v]), path, ignored) == Normalize(o, path, ignored)
  {
    assert IsDefaulted(k, v);
    DefaultedField(o, k, v, path, ignored);
  }

  // --- ignore entries --------------------------------------------------------------------------

  predicate AllOf(s: string, cut: char -> bool) {
    forall i :: 0 <= i < |s| ==> cut(s[i])
  }

  lemma {:induction false} TrimPad(before: string, s: string, after: string, cut: char -> bool)
    requires AllOf(before, cut) && AllOf(after, cut)
    requires s == [] || (!cut(s[0]) && !cut(s[|s| - 1]))
    ensures Trim(before + s + after, cut) == s
    decreases |before| + |after|
  {
    var whole := before + s + after;
    if before != [] {
      TrimPad(before[1..], s, after, cut);
      assert whole[0] == before[0] && whole[1..] == before[1..] + s + after;
    } else if after != [] && s == [] {
      TrimPad(before, s, after[1..], cut);
      assert whole[0] == after[0] && whole[1..] == before + s + after[1..];
    } else if after != [] {
      var rest := after[..|after| - 1];
      TrimPad(before, s, rest, cut);
      assert whole[0] == s[0] && whole[|whole| - 1] == after[|after| - 1] && whole[..|whole| - 1] == before + s + rest;
    } else {
      assert whole == s;
    }
  }

  /** A field as it is meant: not blank, and without the padding that configuration allows. */
  predicate PlainField(field: string) {
    && field != "" && !IsSpace(field[0]) && !IsDot(field[0])
    && !IsSpace(field[|field| - 1]) && !IsDot(field[|field| - 1]) && !("component." <= field)
  }

  /** An entry, however padded with blanks and dots and with or without its component prefix,
      covers exactly the field itself and every path that ends in it after a dot. */
  lemma CoversIff(left: string, dots: string, prefix: string, field: string, more: string, right: string, path: string)
    requires PlainField(field) && prefix in {"", "component."}
    requires AllOf(left, IsSpace) && AllOf(right, IsSpace) && AllOf(dots, IsDot) && AllOf(more, IsDot)
    ensures Covers(left + (dots + (prefix + field) + more) + right, path)
            <==> path == field || exists before: string :: path == before + "." + field
  {
    PaddedTrims(left, dots, prefix + field, more, right, prefix, field);
    CoversAs(left + (dots + (prefix + field) + more) + right, prefix + field, field, path);
  }

  lemma CoversAs(configured: string, named: string, field: string, path: string)
    requires Trim(Trim(configured, IsSpace), IsDot) == named && named != ""
    requires TrimPrefix(named, "component.") == field
    ensures Covers(configured, path) <==> path == field || exists before: string :: path == before + "." + field
  {
    SuffixIff(path, "." + field);
    forall before: string ensures before + "." + field == before + ("." + field) {}
  }

  lemma PaddedTrims(left: string, dots: string, named: string, more: string, right: string, prefix: string,
      field: string)
    requires PlainField(field) && prefix in {"", "component."} && named == prefix + field
    requires AllOf(left, IsSpace) && AllOf(right, IsSpace) && AllOf(dots, IsDot) && AllOf(more, IsDot)
    ensures Trim(Trim(left + (dots + named + more) + right, IsSpace), IsDot) == named
    ensures named != "" && TrimPrefix(named, "component.") == field
  {
    NamedEnds(prefix, field);
    DottedEnds(dots, named, more);
    TrimPad(left, dots + named + more, right, IsSpace);
    TrimPad(dots, named, more, IsDot);
  }

  lemma DottedEnds(dots: string, named: string, more: string)
    requires named != [] && !IsSpace(named[0]) && !IsSpace(named[|named| - 1])
    requires AllOf(dots, IsDot) && AllOf(more, IsDot)
    ensures var dotted := dots + named + more;
            dotted != [] && !IsSpace(dotted[0]) && !IsSpace(dotted[|dotted| - 1])
  {
    var dotted := dots + named + more;
    assert dotted[0] == if dots == [] then named[0] else dots[0];
    assert dotted[|dotted| - 1] == if more == [] then named[|named| - 1] else more[|more| - 1];
  }

  lemma NamedEnds(prefix: string, field: string)
    requires PlainField(field) && prefix in {"", "component."}
    ensures var named := prefix + field;
            && named != [] && !IsDot(named[0]) && !IsSpace(named[0]) && !IsDot(named[|named| - 1])
            && !IsSpace(named[|named| - 1]) && TrimPrefix(named, "component.") == field
  {
  }

  lemma SuffixIff(s: string, suffix: string)
    ensures HasSuffix(s, suffix) <==> exists before: string :: s == before + suffix
  {
    if HasSuffix(s, suffix) {
      assert s == s[..|s| - |suffix|] + suffix;
    }
  }
}
